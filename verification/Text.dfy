/** Strings as the Remote uses them: trimming, ordinal search, splitting and joining. */
module Text {

  datatype Option<+T> = None | Some(value: T)

  lemma SplitInThree<T>(s: seq<T>, i: nat, j: nat)
    requires i <= j <= |s|
    ensures s == s[..i] + s[i..j] + s[j..]
  {
    assert s[..i] + s[i..j] == s[..j];
    assert s == s[..j] + s[j..];
  }

  lemma Reassociate<T>(a: seq<T>, b: seq<T>, c: seq<T>)
    ensures a + b + c == a + (b + c)
  {
  }

  lemma HasFirst<T>(s: seq<T>)
    ensures s == [] || s[0] in s
  {
  }

  /** A list without its element at k, as a multiset. */
  lemma Without<T>(s: seq<T>, k: nat)
    requires k < |s|
    ensures multiset(s) == multiset(s[..k] + s[k + 1..]) + multiset{s[k]}
  {
    assert s == s[..k] + [s[k]] + s[k + 1..];
  }

  lemma Cancel<T>(a: multiset<T>, b: multiset<T>, x: T)
    requires a + multiset{x} == b + multiset{x}
    ensures a == b
  {
    assert a == (a + multiset{x}) - multiset{x};
  }

  // ----- Characters -----

  /** The characters that .NET's char.IsWhiteSpace accepts. */
  predicate IsWhite(c: char) {
    var n := c as int;
    || 9 <= n <= 13 || n == 0x20 || n == 0x85 || n == 0xA0 || n == 0x1680
    || 0x2000 <= n <= 0x200A || n == 0x2028 || n == 0x2029 || n == 0x202F || n == 0x205F || n == 0x3000
  }

  predicate AllWhite(s: string) {
    forall i :: 0 <= i < |s| ==> IsWhite(s[i])
  }

  /** ASCII lower-casing, the case folding used for keys and section names. */
  function LowerChar(c: char): char {
    if 'A' <= c <= 'Z' then ((c as int) + 32) as char else c
  }

  function Lower(s: string): (r: string)
    ensures |r| == |s| && forall i :: 0 <= i < |s| ==> r[i] == LowerChar(s[i])
  {
    seq(|s|, i requires 0 <= i < |s| => LowerChar(s[i]))
  }

  /** string.Equals(a, b, StringComparison.OrdinalIgnoreCase) */
  predicate EqualsIgnoreCase(a: string, b: string) {
    Lower(a) == Lower(b)
  }

  predicate StartsWith(s: string, p: string) {
    |p| <= |s| && s[..|p|] == p
  }

  predicate StartsWithIgnoreCase(s: string, p: string) {
    |p| <= |s| && EqualsIgnoreCase(s[..|p|], p)
  }

  lemma LowerSlice(s: string, i: nat, j: nat)
    requires i <= j <= |s|
    ensures Lower(s[i..j]) == Lower(s)[i..j]
  {
  }

  lemma LowerIdempotent(s: string)
    ensures Lower(Lower(s)) == Lower(s)
  {
  }

  // ----- Trimming -----

  function TrimStart(s: string): (r: string)
    ensures r != "" ==> !IsWhite(r[0])
  {
    if s != "" && IsWhite(s[0]) then TrimStart(s[1..]) else s
  }

  function TrimEnd(s: string): (r: string)
    ensures r != "" ==> !IsWhite(r[|r| - 1])
  {
    if s != "" && IsWhite(s[|s| - 1]) then TrimEnd(s[..|s| - 1]) else s
  }

  function Trim(s: string): string {
    TrimEnd(TrimStart(s))
  }

  predicate Trimmed(s: string) {
    s != "" ==> !IsWhite(s[0]) && !IsWhite(s[|s| - 1])
  }

  lemma {:induction false} TrimStartAbsorbs(a: string, t: string)
    requires AllWhite(a)
    ensures TrimStart(a + t) == TrimStart(t)
  {
    if a == "" {
      assert a + t == t;
    } else {
      assert (a + t)[0] == a[0] && (a + t)[1..] == a[1..] + t;
      TrimStartAbsorbs(a[1..], t);
    }
  }

  lemma {:induction false} TrimEndAbsorbs(t: string, b: string)
    requires AllWhite(b)
    ensures TrimEnd(t + b) == TrimEnd(t)
  {
    if b == "" {
      assert t + b == t;
    } else {
      var n := |b| - 1;
      assert (t + b)[|t + b| - 1] == b[n] && (t + b)[..|t + b| - 1] == t + b[..n];
      TrimEndAbsorbs(t, b[..n]);
    }
  }

  lemma {:induction false} TrimStartShape(s: string) returns (a: string)
    ensures s == a + TrimStart(s) && AllWhite(a)
  {
    if s != "" && IsWhite(s[0]) {
      var r := TrimStartShape(s[1..]);
      a := [s[0]] + r;
      assert s == [s[0]] + s[1..];
    } else {
      a := "";
    }
  }

  lemma {:induction false} TrimEndShape(s: string) returns (b: string)
    ensures s == TrimEnd(s) + b && AllWhite(b)
  {
    if s != "" && IsWhite(s[|s| - 1]) {
      var r := TrimEndShape(s[..|s| - 1]);
      b := r + [s[|s| - 1]];
      assert s == s[..|s| - 1] + [s[|s| - 1]];
    } else {
      b := "";
    }
  }

  /** Trimming splits a string into white space, a trimmed core, and white space. */
  lemma TrimShape(s: string) returns (a: string, b: string)
    ensures s == a + Trim(s) + b && AllWhite(a) && AllWhite(b)
    ensures Trimmed(Trim(s))
  {
    a := TrimStartShape(s);
    var u := TrimStart(s);
    b := TrimEndShape(u);
    var t := TrimEnd(u);
    assert u == t + b;
    if t != "" { assert t[0] == u[0]; }
  }

  lemma {:induction false} TrimAbsorbsEnd(s: string, b: string)
    requires AllWhite(b)
    ensures TrimEnd(TrimStart(s + b)) == TrimEnd(TrimStart(s))
  {
    if s == "" {
      assert s + b == b + "";
      TrimStartAbsorbs(b, "");
    } else if IsWhite(s[0]) {
      assert (s + b)[0] == s[0] && (s + b)[1..] == s[1..] + b;
      TrimAbsorbsEnd(s[1..], b);
    } else {
      assert (s + b)[0] == s[0];
      TrimEndAbsorbs(s, b);
    }
  }

  /** White space around a string does not change what trimming leaves. */
  lemma TrimAbsorbs(a: string, s: string, b: string)
    requires AllWhite(a) && AllWhite(b)
    ensures Trim(a + s + b) == Trim(s)
  {
    assert a + s + b == a + (s + b);
    TrimStartAbsorbs(a, s + b);
    TrimAbsorbsEnd(s, b);
  }

  lemma TrimCharacters(s: string, c: char)
    requires c !in s
    ensures c !in Trim(s)
  {
    var a, b := TrimShape(s);
    assert forall i :: 0 <= i < |Trim(s)| ==> Trim(s)[i] == s[|a| + i];
  }

  lemma TrimOfTrimmed(s: string)
    requires Trimmed(s)
    ensures Trim(s) == s
  {
  }

  /** A trimmed core inside white space is what trimming leaves: the split of TrimShape is the only one. */
  lemma TrimUnique(a: string, t: string, b: string)
    requires AllWhite(a) && AllWhite(b) && Trimmed(t)
    ensures Trim(a + t + b) == t
  {
    TrimAbsorbs(a, t, b);
    TrimOfTrimmed(t);
  }

  lemma LowerConcat(a: string, b: string)
    ensures Lower(a + b) == Lower(a) + Lower(b)
  {
  }

  lemma LowerPreservesTrim(s: string)
    ensures Lower(Trim(s)) == Trim(Lower(s))
  {
    var a, b := TrimShape(s);
    LowerConcat(a + Trim(s), b);
    LowerConcat(a, Trim(s));
    TrimUnique(Lower(a), Lower(Trim(s)), Lower(b));
  }

  // ----- Searching -----

  predicate OccursAt(s: string, p: string, i: int) {
    0 <= i <= |s| - |p| && s[i..i + |p|] == p
  }

  lemma OccursAtChars(s: string, p: string, i: int)
    ensures OccursAt(s, p, i) <==> 0 <= i <= |s| - |p| && forall k :: 0 <= k < |p| ==> s[i + k] == p[k]
  {
    if 0 <= i <= |s| - |p| {
      var window := s[i..i + |p|];
      assert forall k :: 0 <= k < |p| ==> window[k] == s[i + k];
    }
  }

  lemma OccursAtChar(s: string, c: char, i: int)
    ensures OccursAt(s, [c], i) <==> 0 <= i < |s| && s[i] == c
  {
    OccursAtChars(s, [c], i);
    assert [c][0] == c;
  }

  predicate Contains(s: string, p: string) {
    exists i :: 0 <= i <= |s| - |p| && OccursAt(s, p, i)
  }

  /** s.IndexOf(p, from, StringComparison.Ordinal): the first occurrence at or after from, or -1. */
  function IndexOf(s: string, p: string, from: nat): (r: int)
    ensures r == -1 || (from <= r && OccursAt(s, p, r))
    ensures forall i :: from <= i && (r == -1 || i < r) ==> !OccursAt(s, p, i)
    decreases |s| - from
  {
    if from + |p| > |s| then -1
    else if s[from..from + |p|] == p then from
    else IndexOf(s, p, from + 1)
  }

  /** The first occurrence is the only index with nothing earlier. */
  lemma IndexOfIs(s: string, p: string, from: nat, r: int)
    requires from <= r && OccursAt(s, p, r)
    requires forall i :: from <= i < r ==> !OccursAt(s, p, i)
    ensures IndexOf(s, p, from) == r
  {
  }

  lemma IndexOfNone(s: string, p: string, from: nat)
    requires forall i :: from <= i ==> !OccursAt(s, p, i)
    ensures IndexOf(s, p, from) == -1
  {
  }

  // ----- Splitting and joining -----

  /** s.Split(c): the parts between the separators, empty ones included. */
  function Split(s: string, c: char): (r: seq<string>)
    ensures r != []
    decreases |s|
  {
    var i := IndexOf(s, [c], 0);
    if i < 0 then [s] else [s[..i]] + Split(s[i + 1..], c)
  }

  /** string.Join(sep, parts) */
  function Join(parts: seq<string>, sep: string): string {
    if parts == [] then ""
    else if |parts| == 1 then parts[0]
    else parts[0] + sep + Join(parts[1..], sep)
  }

  lemma SplitNone(s: string, c: char)
    requires c !in s
    ensures Split(s, c) == [s]
  {
    forall i | 0 <= i ensures !OccursAt(s, [c], i) { OccursAtChar(s, c, i); }
    IndexOfNone(s, [c], 0);
  }

  lemma SplitFirst(a: string, c: char, rest: string)
    requires c !in a
    ensures Split(a + [c] + rest, c) == [a] + Split(rest, c)
  {
    var s := a + [c] + rest;
    forall i | 0 <= i <= |a| ensures OccursAt(s, [c], i) <==> i == |a| { OccursAtChar(s, c, i); }
    IndexOfIs(s, [c], 0, |a|);
    assert s[..|a|] == a && s[|a| + 1..] == rest;
  }

  /** Splitting what was joined with the same separator gives the parts back. */
  lemma {:induction false} SplitJoin(parts: seq<string>, c: char)
    requires parts != [] && forall i :: 0 <= i < |parts| ==> c !in parts[i]
    ensures Split(Join(parts, [c]), c) == parts
  {
    if |parts| == 1 {
      SplitNone(parts[0], c);
    } else {
      SplitFirst(parts[0], c, Join(parts[1..], [c]));
      SplitJoin(parts[1..], c);
      assert parts == [parts[0]] + parts[1..];
    }
  }
}
