/** Messages made of KEY=value fields, as WAVE| and SETTINGS| are: every field sets one control if
    its key is known and its value is acceptable, and is ignored otherwise. */
module Fields {
  import opened Text

  datatype Field = Field(key: string, value: string)

  /** One field of the message; anything but exactly one '=' makes it no field at all. */
  function ParseField(param: string): Option<Field> {
    var parts := Split(param, '=');
    if |parts| == 2 then Some(Field(Trim(parts[0]), Trim(parts[1]))) else None
  }

  function ParseEach(params: seq<string>): (r: seq<Option<Field>>)
    ensures |r| == |params|
  {
    if params == [] then [] else [ParseField(params[0])] + ParseEach(params[1..])
  }

  lemma {:induction false} ParsedParam(params: seq<string>, k: nat)
    requires k < |params|
    ensures ParseEach(params)[k] == ParseField(params[k])
  {
    hide ParseField;
    if k > 0 { ParsedParam(params[1..], k - 1); }
  }

  /** The fields behind the message's tag. */
  function ParseFields(body: string): seq<Option<Field>> {
    ParseEach(Split(body, '|'))
  }

  /** The first key equal to the given one, ignoring case, or the number of keys. */
  function SlotOf(keys: seq<string>, key: string): (r: nat)
    ensures r <= |keys|
    ensures r < |keys| ==> EqualsIgnoreCase(keys[r], key)
    ensures forall i :: 0 <= i < r ==> !EqualsIgnoreCase(keys[i], key)
  {
    if keys == [] || EqualsIgnoreCase(keys[0], key) then 0
    else
      var r := SlotOf(keys[1..], key);
      assert forall i :: 1 <= i < r + 1 ==> keys[i] == keys[1..][i - 1];
      r + 1
  }

  /** The keys of a message, and the value each of them accepts a text as. */
  datatype Protocol<!V> = Protocol(keys: seq<string>, accept: (nat, string) -> Option<V>)

  /** What a field sets slot i to. */
  function Sets<V>(p: Protocol<V>, f: Option<Field>, i: nat): Option<V> {
    if f.Some? && i < |p.keys| && SlotOf(p.keys, f.value.key) == i then p.accept(i, f.value.value) else None
  }

  predicate Addresses<V>(p: Protocol<V>, f: Option<Field>, i: nat) {
    f.Some? && i < |p.keys| && SlotOf(p.keys, f.value.key) == i
  }

  /** One field applied to the controls. */
  function Apply<V>(p: Protocol<V>, controls: seq<V>, f: Option<Field>): (r: seq<V>)
    requires |controls| == |p.keys|
    ensures |r| == |controls|
    ensures forall i :: 0 <= i < |r| ==> r[i] == if Sets(p, f, i).Some? then Sets(p, f, i).value else controls[i]
  {
    if f.None? then controls
    else
      var i := SlotOf(p.keys, f.value.key);
      if i == |p.keys| then controls
      else match p.accept(i, f.value.value)
        case None => controls
        case Some(v) => controls[i := v]
  }

  function ApplyAll<V>(p: Protocol<V>, controls: seq<V>, fields: seq<Option<Field>>): (r: seq<V>)
    requires |controls| == |p.keys|
    ensures |r| == |controls|
  {
    if fields == [] then controls
    else
      var n := |fields| - 1;
      Apply(p, ApplyAll(p, controls, fields[..n]), fields[n])
  }

  /** The value given by the last field that sets slot i. */
  function LastSet<V>(p: Protocol<V>, fields: seq<Option<Field>>, i: nat): Option<V> {
    if fields == [] then None
    else
      var n := |fields| - 1;
      if Sets(p, fields[n], i).Some? then Sets(p, fields[n], i) else LastSet(p, fields[..n], i)
  }

  /** Every control ends up with the last acceptable value sent for it, or keeps its own. */
  lemma {:induction false} LastSetWins<V>(p: Protocol<V>, controls: seq<V>, fields: seq<Option<Field>>, i: nat)
    requires |controls| == |p.keys| && i < |controls|
    ensures ApplyAll(p, controls, fields)[i] ==
            match LastSet(p, fields, i) { case Some(v) => v case None => controls[i] }
  {
    if fields != [] {
      hide Sets, Apply;
      LastSetWins(p, controls, fields[..|fields| - 1], i);
    }
  }

  /** The field at k is the last one for slot i. */
  ghost predicate LastFor<V>(p: Protocol<V>, fields: seq<Option<Field>>, k: nat, i: nat) {
    k < |fields| && Addresses(p, fields[k], i) && forall j :: k < j < |fields| ==> !Addresses(p, fields[j], i)
  }

  /** The last field for a control gives it its value, or, when that is not acceptable, leaves the one the fields
      before it have left; what stands behind it does not matter. */
  lemma {:induction false} LastFieldDecides<V>(p: Protocol<V>, controls: seq<V>, fields: seq<Option<Field>>, k: nat,
          i: nat)
    requires |controls| == |p.keys| && i < |controls| && LastFor(p, fields, k, i)
    ensures ApplyAll(p, controls, fields)[i] ==
            match p.accept(i, fields[k].value.value)
            case Some(v) => v
            case None => ApplyAll(p, controls, fields[..k])[i]
    decreases |fields|
  {
    hide SlotOf;
    var n := |fields| - 1;
    if k < n {
      LastFieldDecides(p, controls, fields[..n], k, i);
      assert fields[..n][..k] == fields[..k];
    }
  }

  /** Applying a message twice is applying it once. */
  lemma ApplyTwice<V>(p: Protocol<V>, controls: seq<V>, fields: seq<Option<Field>>)
    requires |controls| == |p.keys|
    ensures ApplyAll(p, ApplyAll(p, controls, fields), fields) == ApplyAll(p, controls, fields)
  {
    hide ApplyAll, LastSet;
    var once := ApplyAll(p, controls, fields);
    forall i | 0 <= i < |controls| ensures ApplyAll(p, once, fields)[i] == once[i] {
      LastSetWins(p, controls, fields, i);
      LastSetWins(p, once, fields, i);
    }
  }

  lemma {:induction false} LastSetConcat<V>(p: Protocol<V>, a: seq<Option<Field>>, b: seq<Option<Field>>, i: nat)
    ensures LastSet(p, a + b, i) == if LastSet(p, b, i).Some? then LastSet(p, b, i) else LastSet(p, a, i)
  {
    hide Sets;
    if b == [] {
      assert a + b == a;
    } else {
      var n := |b| - 1;
      assert (a + b)[..|a + b| - 1] == a + b[..n];
      LastSetConcat(p, a, b[..n], i);
    }
  }

  /** A field with an unknown key or an unacceptable value changes nothing, wherever it stands. */
  lemma BadFieldIsolated<V>(p: Protocol<V>, controls: seq<V>, a: seq<Option<Field>>, bad: Option<Field>,
          b: seq<Option<Field>>)
    requires |controls| == |p.keys|
    requires forall i :: 0 <= i < |p.keys| ==> Sets(p, bad, i) == None
    ensures ApplyAll(p, controls, a + [bad] + b) == ApplyAll(p, controls, a + b)
  {
    hide ApplyAll, Sets;
    forall i | 0 <= i < |controls|
      ensures ApplyAll(p, controls, a + [bad] + b)[i] == ApplyAll(p, controls, a + b)[i]
    {
      LastSetWins(p, controls, a + [bad] + b, i);
      LastSetWins(p, controls, a + b, i);
      LastSetConcat(p, a + [bad], b, i);
      LastSetConcat(p, a, [bad], i);
      LastSetConcat(p, a, b, i);
      assert Sets(p, bad, i) == None;
      assert LastSet(p, [bad], i) == None by { assert [bad][..0] == []; }
    }
  }

  /** A control set by one field only gets that field's value. */
  lemma {:induction false} OnlySetter<V>(p: Protocol<V>, fields: seq<Option<Field>>, i: nat, k: nat)
    requires k < |fields| && forall j :: 0 <= j < |fields| && j != k ==> Sets(p, fields[j], i) == None
    ensures LastSet(p, fields, i) == Sets(p, fields[k], i)
  {
    hide Sets;
    var n := |fields| - 1;
    if k < n {
      OnlySetter(p, fields[..n], i, k);
    } else {
      LastSetFrom(p, fields[..n], i);
    }
  }

  /** No two fields are for the same control. */
  ghost predicate DistinctKeys<V>(p: Protocol<V>, fields: seq<Option<Field>>) {
    forall a, b, i :: 0 <= a < b < |fields| && Addresses(p, fields[a], i) ==> !Addresses(p, fields[b], i)
  }

  lemma {:induction false} LastSetFrom<V>(p: Protocol<V>, fields: seq<Option<Field>>, i: nat)
    ensures LastSet(p, fields, i).Some? ==>
              exists k :: 0 <= k < |fields| && Sets(p, fields[k], i) == LastSet(p, fields, i)
    ensures LastSet(p, fields, i).None? ==> forall k :: 0 <= k < |fields| ==> Sets(p, fields[k], i) == None
  {
    if fields != [] {
      hide Sets;
      var n := |fields| - 1;
      LastSetFrom(p, fields[..n], i);
      if LastSet(p, fields, i).Some? && Sets(p, fields[n], i).None? {
        var k :| 0 <= k < n && Sets(p, fields[..n][k], i) == LastSet(p, fields, i);
        assert Sets(p, fields[k], i) == LastSet(p, fields, i);
      }
    }
  }

  /** Fields for different controls may come in any order. */
  lemma AnyOrder<V>(p: Protocol<V>, controls: seq<V>, fields: seq<Option<Field>>, permuted: seq<Option<Field>>)
    requires |controls| == |p.keys| && DistinctKeys(p, fields)
    requires multiset(fields) == multiset(permuted)
    ensures ApplyAll(p, controls, fields) == ApplyAll(p, controls, permuted)
  {
    hide ApplyAll, LastSet;
    forall i | 0 <= i < |controls|
      ensures ApplyAll(p, controls, fields)[i] == ApplyAll(p, controls, permuted)[i]
    {
      LastSetWins(p, controls, fields, i);
      LastSetWins(p, controls, permuted, i);
      SameLastSet(p, fields, permuted, i);
    }
  }

  lemma NoneInBoth<V>(p: Protocol<V>, fields: seq<Option<Field>>, permuted: seq<Option<Field>>, i: nat)
    requires multiset(fields) == multiset(permuted) && LastSet(p, permuted, i).None?
    ensures LastSet(p, fields, i).None?
  {
    hide LastSet, Sets;
    LastSetFrom(p, fields, i);
    LastSetFrom(p, permuted, i);
    forall k | 0 <= k < |fields| ensures Sets(p, fields[k], i) == None {
      assert fields[k] in multiset(permuted);
    }
  }

  lemma SameLastSet<V>(p: Protocol<V>, fields: seq<Option<Field>>, permuted: seq<Option<Field>>, i: nat)
    requires DistinctKeys(p, fields) && multiset(fields) == multiset(permuted)
    ensures LastSet(p, fields, i) == LastSet(p, permuted, i)
  {
    hide LastSet;
    LastSetFrom(p, fields, i);
    LastSetFrom(p, permuted, i);
    if LastSet(p, permuted, i).Some? {
      var k :| 0 <= k < |permuted| && Sets(p, permuted[k], i) == LastSet(p, permuted, i);
      assert permuted[k] in multiset(fields);
      var m :| 0 <= m < |fields| && fields[m] == permuted[k];
      if LastSet(p, fields, i).None? { NoneInBoth(p, permuted, fields, i); }
      var l :| 0 <= l < |fields| && Sets(p, fields[l], i) == LastSet(p, fields, i);
      assert Addresses(p, fields[m], i) && Addresses(p, fields[l], i);
    } else {
      NoneInBoth(p, fields, permuted, i);
    }
  }

  // ----- Printing -----

  function PrintField(f: Field): string {
    f.key + "=" + f.value
  }

  /** Text that survives as part of a field. */
  predicate Plain(s: string) {
    '|' !in s && '=' !in s && Trimmed(s)
  }

  function PrintEach(fields: seq<Field>): (r: seq<string>)
    ensures |r| == |fields|
  {
    if fields == [] then [] else [PrintField(fields[0])] + PrintEach(fields[1..])
  }

  function PrintFields(fields: seq<Field>): string {
    Join(PrintEach(fields), "|")
  }

  function Somes(fields: seq<Field>): (r: seq<Option<Field>>)
    ensures |r| == |fields| && forall i :: 0 <= i < |r| ==> r[i] == Some(fields[i])
  {
    seq(|fields|, i requires 0 <= i < |fields| => Some(fields[i]))
  }

  lemma PrintParseField(f: Field)
    requires Plain(f.key) && Plain(f.value)
    ensures ParseField(PrintField(f)) == Some(f) && '|' !in PrintField(f)
  {
    assert f.key + "=" + f.value == f.key + ['='] + f.value;
    SplitFirst(f.key, '=', f.value);
    SplitNone(f.value, '=');
    TrimOfTrimmed(f.key);
    TrimOfTrimmed(f.value);
  }

  lemma {:induction false} PrintParseEach(fields: seq<Field>)
    requires forall i :: 0 <= i < |fields| ==> Plain(fields[i].key) && Plain(fields[i].value)
    ensures ParseEach(PrintEach(fields)) == Somes(fields)
    ensures forall i :: 0 <= i < |fields| ==> '|' !in PrintEach(fields)[i]
  {
    hide ParseField, PrintField, Plain;
    if fields != [] {
      PrintParseField(fields[0]);
      PrintParseEach(fields[1..]);
      assert PrintEach(fields)[1..] == PrintEach(fields[1..]);
    }
  }

  /** Printed fields are parsed back as they were. */
  lemma PrintParseFields(fields: seq<Field>)
    requires fields != [] && forall i :: 0 <= i < |fields| ==> Plain(fields[i].key) && Plain(fields[i].value)
    ensures ParseFields(PrintFields(fields)) == Somes(fields)
  {
    hide ParseField, PrintField, Plain;
    PrintParseEach(fields);
    SplitJoin(PrintEach(fields), '|');
  }
}
