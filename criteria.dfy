/**
 * The `Criteria` predicate set and its mutable `CriteriaBuilder`
 * (src/query/Criteria.js). A criteria maps each field name to the condition of
 * the last triple for that field whose value is not empty; conditions are
 * carried, never inspected.
 */
module QueryCriteria {
  import opened JsValues

  /** A condition such as `{ [Op.eq]: 1234 }`: an opaque value attached to a field. */
  type Cond = Value

  datatype Triple = Triple(field: string, value: Value, condition: Cond)

  /** `isEmpty`: arrays are empty when they have no element; otherwise only `undefined` and `''` are. */
  function IsEmpty(value: Value): (r: bool)
    ensures r <==> value == Undefined || value == Str("") || value == Arr([])
    ensures value == Null || value.Num? || value.Bool? || value.Obj? ==> !r
  {
    if value.Arr? then |value.items| < 1
    else value == Undefined || value == Str("")
  }

  /**
   * The mapping the constructor accumulates over `triples`, in order: each
   * non-empty triple (re)assigns its field.
   */
  function Compose(triples: seq<Triple>): map<string, Cond>
    decreases |triples|
  {
    if |triples| == 0 then map[]
    else
      var before := Compose(triples[..|triples| - 1]);
      var last := triples[|triples| - 1];
      if IsEmpty(last.value) then before else before[last.field := last.condition]
  }

  /** An immutable, already filtered set of conditions. */
  datatype Criteria = Criteria(condition: map<string, Cond>) {
    /** `getCriteria`: the stored mapping, as the constructor left it. */
    function GetCriteria(): (r: map<string, Cond>)
      ensures r == condition
    {
      condition
    }
  }

  /** `new Criteria(...conditions)`: the constructor's `forEach` over the triples. */
  method NewCriteria(conditions: seq<Triple>) returns (c: Criteria)
    ensures c.GetCriteria() == Compose(conditions)
  {
    var condition: map<string, Cond> := map[];
    for i := 0 to |conditions|
      invariant condition == Compose(conditions[..i])
    {
      assert conditions[..i + 1][..i] == conditions[..i];
      var val := conditions[i];
      if !IsEmpty(val.value) {
        condition := condition[val.field := val.condition];
      }
    }
    assert conditions[..|conditions|] == conditions;
    c := Criteria(condition);
  }

  /** The fields of the mapping are exactly the fields of the non-empty triples. */
  lemma {:induction false} ComposeKeys(triples: seq<Triple>)
    ensures Compose(triples).Keys == set t | t in triples && !IsEmpty(t.value) :: t.field
    decreases |triples|
  {
    if |triples| > 0 {
      var init := triples[..|triples| - 1];
      ComposeKeys(init);
      assert triples == init + [triples[|triples| - 1]];
    }
  }

  /** For a repeated field, the last non-empty triple with that field supplies the condition. */
  lemma {:induction false} ComposeLastWins(triples: seq<Triple>, j: nat)
    requires j < |triples| && !IsEmpty(triples[j].value)
    requires forall k :: j < k < |triples| ==> triples[k].field != triples[j].field || IsEmpty(triples[k].value)
    ensures triples[j].field in Compose(triples)
    ensures Compose(triples)[triples[j].field] == triples[j].condition
    decreases |triples|
  {
    if j < |triples| - 1 {
      var init := triples[..|triples| - 1];
      ComposeLastWins(init, j);
    }
  }

  /** Appending triples never removes a field: the keys of a prefix's mapping survive. */
  lemma ComposeKeysGrow(triples: seq<Triple>, more: seq<Triple>)
    ensures Compose(triples).Keys <= Compose(triples + more).Keys
  {
    ComposeKeys(triples);
    ComposeKeys(triples + more);
    forall t | t in triples ensures t in triples + more {
    }
  }

  /** One more triple at the end is one more (re)assignment, unless its value is empty. */
  lemma ComposeSnoc(triples: seq<Triple>, t: Triple)
    ensures Compose(triples + [t])
         == if IsEmpty(t.value) then Compose(triples) else Compose(triples)[t.field := t.condition]
  {
    assert (triples + [t])[..|triples|] == triples;
  }

  /** Removing a triple whose value is empty does not change the mapping. */
  lemma {:induction false} ComposeIgnoresEmpty(triples: seq<Triple>, i: nat)
    requires i < |triples| && IsEmpty(triples[i].value)
    ensures Compose(triples[..i] + triples[i + 1..]) == Compose(triples)
    decreases |triples|
  {
    var n := |triples|;
    var init := triples[..n - 1];
    var last := triples[n - 1];
    assert triples == init + [last];
    ComposeSnoc(init, last);
    if i == n - 1 {
      assert triples[..i] + triples[i + 1..] == init;
    } else {
      ComposeIgnoresEmpty(init, i);
      var shorter := init[..i] + init[i + 1..];
      assert triples[..i] + triples[i + 1..] == shorter + [last];
      ComposeSnoc(shorter, last);
    }
  }

  /**
   * The documented example with its one triple passed as an argument, as
   * `build` spreads its list: it yields `{ client_id: { [Op.eq]: 1234 } }`.
   */
  lemma DocExample()
    ensures Compose([Triple("client_id", Num(1234), Obj(map["eq" := Num(1234)]))])
         == map["client_id" := Obj(map["eq" := Num(1234)])]
  {
  }

  /** A mutable, single-owner accumulator of triples. */
  class CriteriaBuilder {
    var conditions: seq<Triple>

    constructor ()
      ensures conditions == []
    {
      conditions := [];
    }

    /** Appends one triple and returns the builder itself, for chaining. */
    method Add(field: string, value: Value, condition: Cond) returns (self: CriteriaBuilder)
      modifies this
      ensures conditions == old(conditions) + [Triple(field, value, condition)]
      ensures self == this
    {
      conditions := conditions + [Triple(field, value, condition)];
      self := this;
    }

    /** A fresh snapshot over the current triples, in insertion order; the builder is unchanged. */
    method Build() returns (c: Criteria)
      ensures c.GetCriteria() == Compose(conditions)
    {
      c := NewCriteria(conditions);
    }

    /** Drops every accumulated triple. */
    method Clean()
      modifies this
      ensures conditions == []
    {
      conditions := [];
    }
  }

  /** The triples of the documented builder chain, with an empty-string `comment` appended. */
  function ExampleChain(clientId: int, fromDate: Value): seq<Triple>
  {
    [ Triple("client_id", Num(clientId), Obj(map["eq" := Num(clientId)])),
      Triple("created_date", fromDate, Obj(map["eq" := Num(clientId)])),
      Triple("status", Str("FAILURE"), Obj(map["ne" := Str("FAILURE")])),
      Triple("request_id", Null, Obj(map["ne" := Null])),
      Triple("comment", Str(""), Obj(map["eq" := Str("")])) ]
  }

  lemma ExampleChainKeys(clientId: int, fromDate: Value)
    requires !IsEmpty(fromDate)
    ensures Compose(ExampleChain(clientId, fromDate))
         == map["client_id" := Obj(map["eq" := Num(clientId)]),
                "created_date" := Obj(map["eq" := Num(clientId)]),
                "status" := Obj(map["ne" := Str("FAILURE")]),
                "request_id" := Obj(map["ne" := Null])]
    ensures Compose(ExampleChain(clientId, fromDate)).Keys
         == {"client_id", "created_date", "status", "request_id"}
  {
    var ts := ExampleChain(clientId, fromDate);
    assert ts[..1] == [] + [ts[0]];
    ComposeSnoc([], ts[0]);
    assert ts[..2] == ts[..1] + [ts[1]];
    ComposeSnoc(ts[..1], ts[1]);
    assert ts[..3] == ts[..2] + [ts[2]];
    ComposeSnoc(ts[..2], ts[2]);
    assert ts[..4] == ts[..3] + [ts[3]];
    ComposeSnoc(ts[..3], ts[3]);
    assert ts == ts[..4] + [ts[4]];
    ComposeSnoc(ts[..4], ts[4]);
  }

  /**
   * The documented chain: `client_id`, `created_date`, `status` and a `null`
   * `request_id` are all kept; the empty-string `comment` is dropped.
   */
  method BuilderExample(clientId: int, fromDate: Value) returns (fields: set<string>)
    requires !IsEmpty(fromDate)
    ensures fields == {"client_id", "created_date", "status", "request_id"}
  {
    var ts := ExampleChain(clientId, fromDate);
    var builder := new CriteriaBuilder();
    var b := builder.Add(ts[0].field, ts[0].value, ts[0].condition);
    b := b.Add(ts[1].field, ts[1].value, ts[1].condition);
    b := b.Add(ts[2].field, ts[2].value, ts[2].condition);
    b := b.Add(ts[3].field, ts[3].value, ts[3].condition);
    b := b.Add(ts[4].field, ts[4].value, ts[4].condition);
    assert b.conditions == ts;
    var criteria := b.Build();
    fields := criteria.GetCriteria().Keys;
    ExampleChainKeys(clientId, fromDate);
  }

  /**
   * Building, adding more and building again gives a second snapshot with at
   * least the first one's fields; cleaning empties later builds and leaves the
   * earlier snapshots as they were.
   */
  method SnapshotsExample(a: Triple, b: Triple) returns (first: Criteria, second: Criteria, third: Criteria)
    requires !IsEmpty(a.value)
    ensures first.GetCriteria() == map[a.field := a.condition]
    ensures first.GetCriteria().Keys <= second.GetCriteria().Keys
    ensures third.GetCriteria() == map[]
  {
    var builder := new CriteriaBuilder();
    var _ := builder.Add(a.field, a.value, a.condition);
    first := builder.Build();
    ghost var before := builder.conditions;
    var _ := builder.Add(b.field, b.value, b.condition);
    second := builder.Build();
    ComposeKeysGrow(before, [b]);
    builder.Clean();
    third := builder.Build();
  }
}
