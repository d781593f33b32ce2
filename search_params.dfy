/** The name-value list behind a URL's `searchParams`, and its `set` operation as the
    URL Standard defines it: if pairs with the name exist, the first one takes the new
    value and the others are removed; otherwise a new pair is appended. */
module SearchParams {

  datatype Param = Param(name: string, value: string)

  predicate HasName(q: seq<Param>, name: string) {
    exists i :: 0 <= i < |q| && q[i].name == name
  }

  /** The values of the pairs called `name`, in list order (URLSearchParams.getAll). */
  function Values(q: seq<Param>, name: string): seq<string> {
    if q == [] then []
    else (if q[0].name == name then [q[0].value] else []) + Values(q[1..], name)
  }

  /** The pairs not called `name`, in list order. */
  function Without(q: seq<Param>, name: string): seq<Param> {
    if q == [] then []
    else (if q[0].name == name then [] else [q[0]]) + Without(q[1..], name)
  }

  /** The first pair called `name` takes `value`; later pairs called `name` go. */
  function ReplaceFirst(q: seq<Param>, name: string, value: string): seq<Param> {
    if q == [] then []
    else if q[0].name == name then [Param(name, value)] + Without(q[1..], name)
    else [q[0]] + ReplaceFirst(q[1..], name, value)
  }

  /** URLSearchParams.set */
  function Set(q: seq<Param>, name: string, value: string): seq<Param> {
    if HasName(q, name) then ReplaceFirst(q, name, value) else q + [Param(name, value)]
  }

  // ----- properties -----

  lemma {:induction false} ValuesAppend(p: seq<Param>, q: seq<Param>, name: string)
    ensures Values(p + q, name) == Values(p, name) + Values(q, name)
    ensures Without(p + q, name) == Without(p, name) + Without(q, name)
  {
    if p != [] {
      assert (p + q)[1..] == p[1..] + q;
      ValuesAppend(p[1..], q, name);
    } else {
      assert p + q == q;
    }
  }

  lemma {:induction false} ValuesEmptyWhenAbsent(q: seq<Param>, name: string)
    requires !HasName(q, name)
    ensures Values(q, name) == []
    ensures Without(q, name) == q
  {
    if q != [] {
      assert !HasName(q[1..], name) by {
        forall i | 0 <= i < |q[1..]| ensures q[1..][i].name != name {
          assert q[1..][i] == q[i + 1];
        }
      }
      ValuesEmptyWhenAbsent(q[1..], name);
    }
  }

  lemma {:induction false} WithoutRemoves(q: seq<Param>, name: string, other: string)
    ensures Values(Without(q, name), name) == []
    ensures other != name ==> Values(Without(q, name), other) == Values(q, other)
    ensures Without(Without(q, name), name) == Without(q, name)
  {
    if q != [] {
      WithoutRemoves(q[1..], name, other);
      var head := if q[0].name == name then [] else [q[0]];
      ValuesAppend(head, Without(q[1..], name), name);
      ValuesAppend(head, Without(q[1..], name), other);
    }
  }

  lemma {:induction false} ReplaceFirstSpec(q: seq<Param>, name: string, value: string, other: string)
    requires HasName(q, name)
    ensures Values(ReplaceFirst(q, name, value), name) == [value]
    ensures other != name ==> Values(ReplaceFirst(q, name, value), other) == Values(q, other)
    ensures Without(ReplaceFirst(q, name, value), name) == Without(q, name)
  {
    var r := ReplaceFirst(q, name, value);
    if q[0].name == name {
      WithoutRemoves(q[1..], name, other);
      ValuesAppend([Param(name, value)], Without(q[1..], name), name);
      ValuesAppend([Param(name, value)], Without(q[1..], name), other);
      WithoutRemoves(q[1..], name, name);
      ValuesAppend([Param(name, value)], Without(q[1..], name), name);
      assert Without(r, name) == Without([Param(name, value)], name) + Without(Without(q[1..], name), name);
    } else {
      assert HasName(q[1..], name) by {
        var i :| 0 <= i < |q| && q[i].name == name;
        assert i > 0 && q[1..][i - 1] == q[i];
      }
      ReplaceFirstSpec(q[1..], name, value, other);
      ValuesAppend([q[0]], ReplaceFirst(q[1..], name, value), name);
      ValuesAppend([q[0]], ReplaceFirst(q[1..], name, value), other);
    }
  }

  /** After `set`, the name has exactly the one new value; every other name keeps its
      values, and the pairs with other names keep their order. */
  lemma SetSpec(q: seq<Param>, name: string, value: string, other: string)
    ensures Values(Set(q, name, value), name) == [value]
    ensures other != name ==> Values(Set(q, name, value), other) == Values(q, other)
    ensures Without(Set(q, name, value), name) == Without(q, name)
  {
    if HasName(q, name) {
      ReplaceFirstSpec(q, name, value, other);
    } else {
      ValuesEmptyWhenAbsent(q, name);
      ValuesAppend(q, [Param(name, value)], name);
      ValuesAppend(q, [Param(name, value)], other);
    }
  }

  /** Appending a pair with another name does not introduce `name`. */
  lemma AppendKeepsAbsent(q: seq<Param>, p: Param, name: string)
    requires !HasName(q, name) && p.name != name
    ensures !HasName(q + [p], name)
  {
    forall i | 0 <= i < |q + [p]| ensures (q + [p])[i].name != name {
      if i < |q| { assert (q + [p])[i] == q[i]; }
    }
  }

  lemma {:induction false} ValuesNonEmptyHasName(q: seq<Param>, name: string)
    requires Values(q, name) != []
    ensures HasName(q, name)
  {
    if q[0].name != name {
      ValuesNonEmptyHasName(q[1..], name);
      var i :| 0 <= i < |q[1..]| && q[1..][i].name == name;
      assert q[i + 1].name == name;
    }
  }

  lemma {:induction false} SingleValueReplaced(q: seq<Param>, name: string, value: string)
    requires Values(q, name) == [value]
    ensures ReplaceFirst(q, name, value) == q
  {
    if q[0].name == name {
      assert Values(q, name) == [q[0].value] + Values(q[1..], name);
      assert |Values(q[1..], name)| == 0;
      assert Values(q, name)[0] == q[0].value;
      NoValuesNoName(q[1..], name);
      ValuesEmptyWhenAbsent(q[1..], name);
      assert [q[0]] + q[1..] == q;
    } else {
      SingleValueReplaced(q[1..], name, value);
      assert [q[0]] + q[1..] == q;
    }
  }

  lemma {:induction false} NoValuesNoName(q: seq<Param>, name: string)
    requires Values(q, name) == []
    ensures !HasName(q, name)
  {
    if q != [] {
      NoValuesNoName(q[1..], name);
      forall i | 0 <= i < |q| ensures q[i].name != name {
        if i > 0 { assert q[i] == q[1..][i - 1]; }
      }
    }
  }

  /** Setting a name to the one value it already has changes nothing; in particular
      `set` is idempotent. */
  lemma SetNoChange(q: seq<Param>, name: string, value: string)
    requires Values(q, name) == [value]
    ensures Set(q, name, value) == q
  {
    ValuesNonEmptyHasName(q, name);
    SingleValueReplaced(q, name, value);
  }

  lemma SetIdempotent(q: seq<Param>, name: string, value: string)
    ensures Set(Set(q, name, value), name, value) == Set(q, name, value)
  {
    SetSpec(q, name, value, name);
    SetNoChange(Set(q, name, value), name, value);
  }
}
