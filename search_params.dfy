/**
 * URLSearchParams as a list of name-value pairs (WHATWG URL Standard, section 6.2,
 * "Interface URLSearchParams"): `get`, `has`, `append`, `set`, `toString` and the
 * string constructor.
 */
module SearchParams {
  import opened Wrappers
  import FormUrlEncoded

  type Params = FormUrlEncoded.Params

  predicate Has(ps: Params, name: string) {
    exists i :: 0 <= i < |ps| && ps[i].0 == name
  }

  /** `params.get(name)`: the value of the first pair with that name, None for null. */
  function Get(ps: Params, name: string): (r: Option<string>)
    ensures r.None? <==> !Has(ps, name)
    ensures r.Some? && |ps| > 0 && ps[0].0 == name ==> r.value == ps[0].1
  {
    if |ps| == 0 then None
    else if ps[0].0 == name then Some(ps[0].1)
    else
      assert Has(ps, name) <==> Has(ps[1..], name) by {
        if Has(ps, name) {
          var i :| 0 <= i < |ps| && ps[i].0 == name;
          assert ps[1..][i - 1].0 == name;
        }
      }
      Get(ps[1..], name)
  }

  /** The list without any pair of the given name. */
  function Without(ps: Params, name: string): (r: Params)
    ensures !Has(r, name)
    ensures |r| <= |ps|
  {
    if |ps| == 0 then []
    else if ps[0].0 == name then Without(ps[1..], name)
    else [ps[0]] + Without(ps[1..], name)
  }

  /** `params.append(name, value)` */
  function Append(ps: Params, name: string, value: string): Params {
    ps + [(name, value)]
  }

  function SetFirst(ps: Params, name: string, value: string): Params {
    if |ps| == 0 then []
    else if ps[0].0 == name then [(name, value)] + Without(ps[1..], name)
    else [ps[0]] + SetFirst(ps[1..], name, value)
  }

  /** `params.set(name, value)`: the first pair of that name takes the value and the
      others are removed; without such a pair, one is appended. */
  function Set(ps: Params, name: string, value: string): Params {
    if Has(ps, name) then SetFirst(ps, name, value) else Append(ps, name, value)
  }

  /** `params.toString()` */
  function ToString(ps: Params): string {
    FormUrlEncoded.Serialize(ps)
  }

  /** `new URLSearchParams(init)` */
  function FromString(init: string): Params {
    FormUrlEncoded.FromString(init)
  }

  lemma HasTail(ps: Params, name: string)
    requires |ps| > 0
    ensures Has(ps, name) <==> ps[0].0 == name || Has(ps[1..], name)
  {
    if Has(ps[1..], name) {
      var i :| 0 <= i < |ps[1..]| && ps[1..][i].0 == name;
      assert ps[i + 1].0 == name;
    }
    if Has(ps, name) && ps[0].0 != name {
      var i :| 0 <= i < |ps| && ps[i].0 == name;
      assert ps[1..][i - 1].0 == name;
    }
  }

  lemma {:induction false} GetWithout(ps: Params, name: string, other: string)
    requires other != name
    ensures Get(Without(ps, name), other) == Get(ps, other)
  {
    if |ps| > 0 {
      GetWithout(ps[1..], name, other);
    }
  }

  lemma {:induction false} WithoutIdempotent(ps: Params, name: string)
    ensures Without(Without(ps, name), name) == Without(ps, name)
  {
    if |ps| > 0 {
      WithoutIdempotent(ps[1..], name);
    }
  }

  lemma {:induction false} WithoutAbsent(ps: Params, name: string)
    requires !Has(ps, name)
    ensures Without(ps, name) == ps
  {
    if |ps| > 0 {
      assert ps[0].0 != name;
      HasTail(ps, name);
      WithoutAbsent(ps[1..], name);
    }
  }

  lemma {:induction false} SetFirstOthers(ps: Params, name: string, value: string)
    ensures Without(SetFirst(ps, name, value), name) == Without(ps, name)
  {
    if |ps| > 0 {
      if ps[0].0 == name {
        WithoutIdempotent(ps[1..], name);
      } else {
        SetFirstOthers(ps[1..], name, value);
      }
    }
  }

  lemma {:induction false} SetFirstGet(ps: Params, name: string, value: string)
    requires Has(ps, name)
    ensures Get(SetFirst(ps, name, value), name) == Some(value)
  {
    if ps[0].0 != name {
      var i :| 0 <= i < |ps| && ps[i].0 == name;
      assert ps[1..][i - 1].0 == name;
      SetFirstGet(ps[1..], name, value);
    }
  }

  lemma {:induction false} WithoutAppend(ps: Params, name: string, value: string)
    ensures Without(ps + [(name, value)], name) == Without(ps, name)
  {
    if |ps| == 0 {
      assert ps + [(name, value)] == [(name, value)];
    } else {
      assert (ps + [(name, value)])[1..] == ps[1..] + [(name, value)];
      WithoutAppend(ps[1..], name, value);
    }
  }

  lemma {:induction false} GetAppendAbsent(ps: Params, name: string, value: string)
    requires !Has(ps, name)
    ensures Get(ps + [(name, value)], name) == Some(value)
  {
    if |ps| == 0 {
      assert ps + [(name, value)] == [(name, value)];
    } else {
      assert ps[0].0 != name;
      assert (ps + [(name, value)])[1..] == ps[1..] + [(name, value)];
      HasTail(ps, name);
      GetAppendAbsent(ps[1..], name, value);
    }
  }

  /** `get` on a concatenation looks in the first part, then in the second. */
  lemma {:induction false} GetConcat(a: Params, b: Params, name: string)
    ensures Get(a + b, name) == if Has(a, name) then Get(a, name) else Get(b, name)
  {
    if |a| == 0 {
      assert a + b == b;
    } else {
      HasTail(a, name);
      assert (a + b)[1..] == a[1..] + b;
      GetConcat(a[1..], b, name);
    }
  }

  /** After `set`, `get` of that name gives the new value... */
  lemma SetGet(ps: Params, name: string, value: string)
    ensures Get(Set(ps, name, value), name) == Some(value)
  {
    if Has(ps, name) {
      SetFirstGet(ps, name, value);
    } else {
      GetAppendAbsent(ps, name, value);
    }
  }

  /** ...and every pair of another name is still there, in the same order. */
  lemma SetKeepsOthers(ps: Params, name: string, value: string)
    ensures Without(Set(ps, name, value), name) == Without(ps, name)
  {
    if Has(ps, name) {
      SetFirstOthers(ps, name, value);
    } else {
      WithoutAppend(ps, name, value);
    }
  }

  /** In particular `get` of any other name is unchanged. */
  lemma SetGetOther(ps: Params, name: string, value: string, other: string)
    requires other != name
    ensures Get(Set(ps, name, value), other) == Get(ps, other)
  {
    SetKeepsOthers(ps, name, value);
    GetWithout(Set(ps, name, value), name, other);
    GetWithout(ps, name, other);
  }

  /** Setting a name on a list that lacks it appends the pair at the end. */
  lemma SetAbsent(ps: Params, name: string, value: string)
    requires !Has(ps, name)
    ensures Set(ps, name, value) == ps + [(name, value)]
  {
  }

  /** A parameter that a builder writes only under a condition: (written, name, value). */
  type Conditional = (bool, string, string)

  function Entry(e: Conditional): Params {
    if e.0 then [(e.1, e.2)] else []
  }

  /** The parameters a builder writes by testing each condition in turn and adding
      the pair when it holds. */
  function Written(es: seq<Conditional>): Params
    decreases |es|
  {
    if |es| == 0 then [] else Written(es[..|es| - 1]) + Entry(es[|es| - 1])
  }

  predicate DistinctNames(es: seq<Conditional>) {
    forall i, j :: 0 <= i < j < |es| ==> es[i].1 != es[j].1
  }

  lemma WrittenSnoc(es: seq<Conditional>, k: nat)
    requires k < |es|
    ensures Written(es[..k + 1]) == Written(es[..k]) + Entry(es[k])
  {
    assert es[..k + 1][..k] == es[..k];
  }

  lemma WrittenAppend(es: seq<Conditional>, e: Conditional)
    ensures Written(es + [e]) == Written(es) + Entry(e)
  {
    assert (es + [e])[..|es|] == es;
  }

  /** Written, unfolded once per condition for a list of four conditions. */
  lemma WrittenFour(es: seq<Conditional>)
    requires |es| == 4
    ensures Written(es) == [] + Entry(es[0]) + Entry(es[1]) + Entry(es[2]) + Entry(es[3])
  {
    assert es[..0] == [];
    WrittenSnoc(es, 0);
    WrittenSnoc(es, 1);
    WrittenSnoc(es, 2);
    WrittenSnoc(es, 3);
    assert es[..4] == es;
  }

  /** Written, unfolded once per condition for a list of six conditions. */
  lemma WrittenPrefixes(es: seq<Conditional>)
    requires |es| == 6
    ensures Written(es) == [] + Entry(es[0]) + Entry(es[1]) + Entry(es[2]) + Entry(es[3]) + Entry(es[4]) + Entry(es[5])
  {
    assert es[..0] == [];
    WrittenSnoc(es, 0);
    WrittenSnoc(es, 1);
    WrittenSnoc(es, 2);
    WrittenSnoc(es, 3);
    WrittenSnoc(es, 4);
    WrittenSnoc(es, 5);
    assert es[..6] == es;
  }

  /** `if (written) params.append(name, value)`, one step of a builder. */
  method AppendWhen(params: Params, written: bool, name: string, value: string) returns (r: Params)
    ensures r == params + Entry((written, name, value))
  {
    r := params;
    if written {
      r := Append(r, name, value);
    }
  }

  /** `if (written) params.set(name, value)` on parameters that do not hold `name` yet,
      where `set` appends. */
  method SetWhen(params: Params, written: bool, name: string, value: string) returns (r: Params)
    requires !Has(params, name)
    ensures r == params + Entry((written, name, value))
  {
    r := params;
    if written {
      SetAbsent(params, name, value);
      r := Set(r, name, value);
    }
  }

  lemma {:induction false} WrittenNames(es: seq<Conditional>, name: string)
    requires forall i :: 0 <= i < |es| ==> es[i].1 != name
    ensures !Has(Written(es), name)
    decreases |es|
  {
    if |es| > 0 {
      var init := es[..|es| - 1];
      WrittenNames(init, name);
      HasConcatAbsent(Written(init), Entry(es[|es| - 1]), name);
    }
  }

  lemma HasConcatAbsent(a: Params, b: Params, name: string)
    requires !Has(a, name) && !Has(b, name)
    ensures !Has(a + b, name)
  {
    forall i | 0 <= i < |a + b| ensures (a + b)[i].0 != name {
      if i < |a| {
        assert (a + b)[i] == a[i];
      } else {
        assert (a + b)[i] == b[i - |a|];
      }
    }
  }

  /** With distinct names, `get` finds each parameter's value exactly when it was written. */
  lemma {:induction false} GetWritten(es: seq<Conditional>, k: nat)
    requires DistinctNames(es) && k < |es|
    ensures Get(Written(es), es[k].1) == if es[k].0 then Some(es[k].2) else None
    decreases |es|
  {
    var n := |es|;
    var init := es[..n - 1];
    var name := es[k].1;
    GetConcat(Written(init), Entry(es[n - 1]), name);
    if k == n - 1 {
      WrittenNames(init, name);
    } else {
      GetWritten(init, k);
      assert es[n - 1].1 != name;
    }
  }

  /** Nothing is written exactly when no condition holds. */
  lemma {:induction false} WrittenEmpty(es: seq<Conditional>)
    ensures Written(es) == [] <==> forall i :: 0 <= i < |es| ==> !es[i].0
    decreases |es|
  {
    if |es| > 0 {
      var init := es[..|es| - 1];
      WrittenEmpty(init);
      assert forall i :: 0 <= i < |init| ==> init[i] == es[i];
    }
  }

  /** The string constructor reads back what `toString` wrote. */
  lemma FromToString(ps: Params)
    ensures FromString(ToString(ps)) == ps
  {
    FormUrlEncoded.FromStringSerialize(ps);
  }

  lemma ToStringEmpty(ps: Params)
    ensures ToString(ps) == "" <==> ps == []
  {
    FormUrlEncoded.SerializeEmpty(ps);
  }
}
