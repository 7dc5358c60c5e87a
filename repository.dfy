/**
 * The repository facade of src/repository/SQRepository.js. Every store call is
 * returned as the request it would send; what the store answers (rows, counts,
 * the upsert's result) and what the runtime supplies (a generated UUID, the
 * current time) are parameters.
 */
module Repository {
  import opened Wrappers
  import opened JsValues
  import opened Store
  import opened QueryCriteria
  import opened Pagination
  import opened NamedQueries
  import opened Strings

  /** The class a repository is built from: the abstract base itself, or a subclass with its own method names. */
  datatype ClassRef = BaseClass | Subclass(name: string, ownMethods: seq<string>)

  /** Own method names of the base class's prototype. */
  const BaseMethods: seq<string> :=
    ["constructor", "save", "findAll", "findAllWhere", "findAllByCriteriaAndPaginated",
     "findAndCountAll", "findOne", "findById", "sum"]

  /** `Object.getOwnPropertyNames(clazz.prototype)`. */
  function OwnMethodNames(c: ClassRef): seq<string>
  {
    match c
    case BaseClass => BaseMethods
    case Subclass(_, ms) => ms
  }

  /** 'Can not instantiate an abstract class'. */
  datatype RepositoryError = AbstractInstantiation

  const DefaultPrimaryKey: string := "id"
  const UpdatedDate: string := "updated_date"

  /** The method names that receive a derived function. */
  function DerivedNames(names: seq<string>): (r: set<string>)
    ensures forall n :: n in r <==> n in names && IsNamedQuery(n)
  {
    set n | n in names && IsNamedQuery(n)
  }

  /** An entity passed to `save`: a plain object whose properties `save` may write. */
  class Entity {
    var fields: Record

    constructor (fields: Record)
      ensures this.fields == fields
    {
      this.fields := fields;
    }
  }

  /** `uuid.replace(/-/g, '')`: every dash removed, every other character kept in order. */
  function RemoveDashes(s: string): (r: string)
    ensures '-' !in r
    ensures forall c :: c in r <==> c in s && c != '-'
    ensures |r| == |s| - multiset(s)['-']
    decreases |s|
  {
    if |s| == 0 then ""
    else
      assert s == [s[0]] + s[1..];
      if s[0] == '-' then RemoveDashes(s[1..]) else [s[0]] + RemoveDashes(s[1..])
  }

  /** Removing dashes works piece by piece: the result of a concatenation is the concatenation of the results. */
  lemma {:induction false} RemoveDashesAppend(a: string, b: string)
    ensures RemoveDashes(a + b) == RemoveDashes(a) + RemoveDashes(b)
    decreases |a|
  {
    if |a| > 0 {
      assert (a + b)[1..] == a[1..] + b;
      RemoveDashesAppend(a[1..], b);
    } else {
      assert a + b == b;
    }
  }

  /**
   * On a single character: a dash disappears, anything else is kept. With
   * `RemoveDashesAppend` this fixes the result as the non-dash characters of
   * `s`, in their order and with their multiplicities.
   */
  lemma RemoveDashesChar(c: char)
    ensures RemoveDashes([c]) == if c == '-' then "" else [c]
  {
    assert [c][1..] == "";
  }

  /** A dash followed by a dash-free group contributes just the group. */
  lemma DashStep(x: string, g: string)
    requires '-' !in g
    ensures RemoveDashes(x + "-" + g) == RemoveDashes(x) + g
  {
    NoDashUnchanged(g);
    RemoveDashesChar('-');
    RemoveDashesAppend(x, "-");
    RemoveDashesAppend(x + "-", g);
  }

  /** A canonical UUID loses exactly its four dashes: the five hex groups are concatenated in order. */
  lemma UuidGroups(g1: string, g2: string, g3: string, g4: string, g5: string)
    requires '-' !in g1 && '-' !in g2 && '-' !in g3 && '-' !in g4 && '-' !in g5
    ensures RemoveDashes(g1 + "-" + g2 + "-" + g3 + "-" + g4 + "-" + g5) == g1 + g2 + g3 + g4 + g5
  {
    NoDashUnchanged(g1);
    DashStep(g1, g2);
    DashStep(g1 + "-" + g2, g3);
    DashStep(g1 + "-" + g2 + "-" + g3, g4);
    DashStep(g1 + "-" + g2 + "-" + g3 + "-" + g4, g5);
  }

  /** A string without dashes is left as it is. */
  lemma {:induction false} NoDashUnchanged(s: string)
    requires '-' !in s
    ensures RemoveDashes(s) == s
    decreases |s|
  {
    if |s| > 0 {
      assert s == [s[0]] + s[1..];
      assert '-' !in s[1..];
      NoDashUnchanged(s[1..]);
    }
  }

  /**
   * The record `save` leaves behind: the key is assigned only when the
   * primary-key field is falsy; every other field is kept as it was.
   */
  function WithKey(fields: Record, primaryKey: string, key: string): (r: Record)
    ensures forall f :: f in fields && f != primaryKey ==> f in r && r[f] == fields[f]
    ensures r.Keys == fields.Keys + {primaryKey} || (r.Keys == fields.Keys && Truthy(Get(fields, primaryKey)))
    ensures Truthy(Get(fields, primaryKey)) ==> r == fields
    ensures !Truthy(Get(fields, primaryKey)) ==> primaryKey in r && r[primaryKey] == Str(key)
  {
    if !Truthy(Get(fields, primaryKey)) then fields[primaryKey := Str(key)] else fields
  }

  /** A record that went through `save` with a non-empty key has a truthy key, and a second save keeps it. */
  lemma WithKeyIdempotent(fields: Record, primaryKey: string, key: string, other: string)
    requires key != ""
    ensures Truthy(Get(WithKey(fields, primaryKey, key), primaryKey))
    ensures WithKey(WithKey(fields, primaryKey, key), primaryKey, other) == WithKey(fields, primaryKey, key)
  {
  }

  /** A canonical UUID (36 characters, four dashes) yields a 32-character key. */
  lemma UuidKeyLength(uuid: string)
    requires |uuid| == 36 && multiset(uuid)['-'] == 4
    ensures |RemoveDashes(uuid)| == 32
  {
  }

  class SQRepository {
    const primaryKey: string
    const clazz: ClassRef
    const model: StoreModel
    /** The names this instance overrides with a derived named-query function. */
    var derived: set<string>

    ghost predicate Valid()
      reads this
    {
      forall n | n in derived :: IsNamedQuery(n)
    }

    /** The constructor past the abstract-class check (see `New`). */
    constructor Init(clazz: ClassRef, model: StoreModel, primaryKey: string)
      ensures Valid()
      ensures this.primaryKey == primaryKey && this.clazz == clazz && this.model == model
      ensures derived == DerivedNames(OwnMethodNames(clazz))
    {
      this.primaryKey := primaryKey;
      this.clazz := clazz;
      this.model := model;
      derived := {};
      new;
      InitNamedQueries(this);
    }

    /** A call of the derived function for `n`: the same request as the closure sends. */
    method Call(n: string, args: seq<Value>) returns (req: Request)
      requires Valid() && n in derived
      ensures req == Request(model, StoreOp.FindAll(QueryOptions(Obj(WhereOf(ParseProperties(n), args)), None, None, Undefined, IncludeAll)))
    {
      req := DerivedQuery(n, args, model);
    }

    /**
     * `save`: writes a generated key into the entity when its primary-key field
     * is falsy, upserts the entity with `updated_date` set, and returns the
     * store's row only when the upsert reports an insertion.
     */
    method Save(entity: Entity, t: Value, uuid: string, now: Value, upserted: (Record, bool))
      returns (req: Request, result: Option<Record>)
      modifies entity
      ensures entity.fields == WithKey(old(entity.fields), primaryKey, RemoveDashes(uuid))
      ensures req == Request(model, Upsert(entity.fields[UpdatedDate := now], Obj(map["transaction" := t])))
      ensures result.Some? <==> upserted.1
      ensures result.Some? ==> result.value == upserted.0
    {
      var val := entity;
      if !Truthy(Get(val.fields, primaryKey)) {
        val.fields := val.fields[primaryKey := Str(RemoveDashes(uuid))];
      }
      req := Request(model, Upsert(val.fields[UpdatedDate := now], Obj(map["transaction" := t])));
      var res := upserted;
      result := if res.1 then Some(res.0) else None;
    }

    /** `findAll`: every entity, with every association. */
    method FindAll() returns (req: Request)
      ensures req == Request(model, StoreOp.FindAll(QueryOptions(Undefined, None, None, Undefined, IncludeAll)))
    {
      req := Request(model, StoreOp.FindAll(QueryOptions(Undefined, None, None, Undefined, IncludeAll)));
    }

    /** `findAllWhere`: the caller's where-clause, passed on unchanged, with every association. */
    method FindAllWhere(query: Value) returns (req: Request)
      ensures req == Request(model, StoreOp.FindAll(QueryOptions(query, None, None, Undefined, IncludeAll)))
    {
      req := Request(model, StoreOp.FindAll(QueryOptions(query, None, None, Undefined, IncludeAll)));
    }

    /**
     * `findAllByCriteriaAndPaginated`: filter by the criteria's mapping, page by
     * `getPagination`, order by `orderAttr` descending exactly when it is truthy,
     * and shape the store's answer into a page envelope.
     */
    method FindAllByCriteriaAndPaginated(criteria: Criteria, page: Option<int>, size: Option<int>, orderAttr: Value,
                                         response: CountRows)
      returns (req: Request, envelope: PageEnvelope)
      ensures var p := GetPagination(page, size);
              req == Request(model, StoreOp.FindAndCountAll(QueryOptions(
                       Obj(criteria.GetCriteria()), Some(p.limit), Some(p.offset),
                       if Truthy(orderAttr) then Arr([Arr([orderAttr, Str("DESC")])]) else Undefined,
                       IncludeAll)))
      ensures envelope == GetPagingData(response, page, GetPagination(page, size).limit)
    {
      var Paging(limit, offset) := GetPagination(page, size);
      var condition := criteria.GetCriteria();
      if Truthy(orderAttr) {
        var order := Arr([Arr([orderAttr, Str("DESC")])]);
        req := Request(model, StoreOp.FindAndCountAll(QueryOptions(Obj(condition), Some(limit), Some(offset), order, IncludeAll)));
        envelope := GetPagingData(response, page, limit);
        return;
      }
      req := Request(model, StoreOp.FindAndCountAll(QueryOptions(Obj(condition), Some(limit), Some(offset), Undefined, IncludeAll)));
      envelope := GetPagingData(response, page, limit);
    }

    /** `findAndCountAll`: the caller's condition, order and include, paged by `getPagination`. */
    method FindAndCountAll(condition: Value, order: Value, page: Option<int>, size: Option<int>, includes: Value,
                           response: CountRows)
      returns (req: Request, envelope: PageEnvelope)
      ensures var p := GetPagination(page, size);
              req == Request(model, StoreOp.FindAndCountAll(QueryOptions(condition, Some(p.limit), Some(p.offset), order, includes)))
      ensures envelope == GetPagingData(response, page, GetPagination(page, size).limit)
    {
      var Paging(limit, offset) := GetPagination(page, size);
      req := Request(model, StoreOp.FindAndCountAll(QueryOptions(condition, Some(limit), Some(offset), order, includes)));
      envelope := GetPagingData(response, page, limit);
    }

    /** `findOne`: the caller's where-clause, with every association. */
    method FindOne(query: Value) returns (req: Request)
      ensures req == Request(model, StoreOp.FindOne(QueryOptions(query, None, None, Undefined, IncludeAll)))
    {
      req := Request(model, StoreOp.FindOne(QueryOptions(query, None, None, Undefined, IncludeAll)));
    }

    /** `findById`: a single-row lookup whose where-clause is exactly `{ [primaryKey]: id }`. */
    method FindById(id: Value) returns (req: Request)
      ensures req.store == model && req.op.FindOne?
      ensures req.op.options.where.Obj? && req.op.options.where.fields.Keys == {primaryKey}
      ensures req.op.options.where.fields[primaryKey] == id
      ensures req.op.options.includes == IncludeAll
      ensures req.op.options.limit.None? && req.op.options.offset.None? && req.op.options.order == Undefined
    {
      var where: map<string, Value> := map[];
      where := where[primaryKey := id];
      req := Request(model, StoreOp.FindOne(QueryOptions(Obj(where), None, None, Undefined, IncludeAll)));
    }

    /** `sum`: the sum of `field`, passing the criteria's mapping as the options when a criteria is given. */
    method Sum(field: string, criteria: Option<Criteria>) returns (req: Request)
      ensures req.store == model && req.op.Sum? && req.op.field == field
      ensures criteria.Some? ==> req.op.sumOptions == Some(Obj(criteria.value.GetCriteria()))
      ensures criteria.None? ==> req.op.sumOptions.None?
    {
      if criteria.Some? {
        req := Request(model, StoreOp.Sum(field, Some(Obj(criteria.value.GetCriteria()))));
        return;
      }
      req := Request(model, StoreOp.Sum(field, None));
    }
  }

  /**
   * `initNamedQueries`: every own method name of the class that starts with
   * `findBy` or `findAllBy` gets a derived function on the instance; no other
   * name is touched.
   */
  method InitNamedQueries(that: SQRepository)
    requires that.Valid()
    modifies that`derived
    ensures that.Valid()
    ensures that.derived == old(that.derived) + DerivedNames(OwnMethodNames(that.clazz))
  {
    var names := OwnMethodNames(that.clazz);
    for i := 0 to |names|
      invariant that.Valid()
      invariant that.derived == old(that.derived) + DerivedNames(names[..i])
    {
      var n := names[i];
      assert names[..i + 1] == names[..i] + [n];
      if IsPrefix("findBy", n) || IsPrefix("findAllBy", n) {
        that.derived := that.derived + {n};
      }
    }
    assert names[..|names|] == names;
  }

  /**
   * `new`: instantiating the base class itself fails; otherwise the primary key
   * defaults to `"id"` and the named queries are derived from the class's own methods.
   */
  method New(newTarget: ClassRef, clazz: ClassRef, model: StoreModel, primaryKey: Option<string>)
    returns (r: Result<SQRepository, RepositoryError>)
    ensures r.Failure? <==> newTarget == BaseClass
    ensures r.Failure? ==> r.error == AbstractInstantiation
    ensures r.Success? ==> fresh(r.value) && r.value.Valid()
    ensures r.Success? ==> r.value.primaryKey == primaryKey.GetOr(DefaultPrimaryKey)
    ensures r.Success? ==> r.value.clazz == clazz && r.value.model == model
    ensures r.Success? ==> r.value.derived == DerivedNames(OwnMethodNames(clazz))
  {
    if newTarget == BaseClass {
      return Failure(AbstractInstantiation);
    }
    var repo := new SQRepository.Init(clazz, model, primaryKey.GetOr(DefaultPrimaryKey));
    r := Success(repo);
  }

  /** A name that differs from `p` at position `k` does not start with `p`. */
  lemma DiffersAt(n: string, p: string, k: nat)
    requires k < |p| && k < |n| && n[k] != p[k]
    ensures !IsPrefix(p, n)
  {
    if |p| <= |n| {
      assert n[..|p|][k] == n[k];
    }
  }

  /** A name that differs from `findBy` at `k1`, and from `findAllBy` at `k2` when it is long enough, is not derived. */
  lemma NotNamed(n: string, k1: nat, k2: nat)
    requires k1 < 6 && k1 < |n| && n[k1] != "findBy"[k1]
    requires |n| < 9 || (k2 < 9 && k2 < |n| && n[k2] != "findAllBy"[k2])
    ensures !IsNamedQuery(n)
  {
    DiffersAt(n, "findBy", k1);
    if |n| >= 9 {
      DiffersAt(n, "findAllBy", k2);
    }
  }

  /** When exactly the names at positions `j` and `k` are named queries, those two are derived. */
  lemma DerivedTwo(names: seq<string>, j: nat, k: nat)
    requires j < |names| && k < |names|
    requires forall i :: 0 <= i < |names| ==> (IsNamedQuery(names[i]) <==> i == j || i == k)
    ensures DerivedNames(names) == {names[j], names[k]}
  {
  }

  /** The tested class: `findAllByName` and `findByNameAndLastName` are derived, the third method is not. */
  lemma TestedClassNames()
    ensures DerivedNames(["constructor", "findAllByName", "findByNameAndLastName", "thisMethodShouldNotGenerateANamedQuery"])
         == {"findAllByName", "findByNameAndLastName"}
  {
    var names := ["constructor", "findAllByName", "findByNameAndLastName", "thisMethodShouldNotGenerateANamedQuery"];
    NotNamed(names[0], 0, 0);
    NotNamed(names[3], 0, 0);
    PrefixOfConcat("findAllBy", "Name");
    PrefixOfConcat("findBy", "NameAndLastName");
    DerivedTwo(names, 1, 2);
  }

  /**
   * Two of the base class's own names, `findAllByCriteriaAndPaginated` and
   * `findById`, match the convention: a subclass that redefines either one
   * has it replaced by a derived query.
   */
  lemma BaseMethodsDerived()
    ensures DerivedNames(BaseMethods) == {"findAllByCriteriaAndPaginated", "findById"}
  {
    BaseNamesNotDerived();
    PrefixOfConcat("findAllBy", "CriteriaAndPaginated");
    PrefixOfConcat("findBy", "Id");
    DerivedTwo(BaseMethods, 4, 7);
  }

  lemma BaseNamesNotDerived()
    ensures !IsNamedQuery("constructor") && !IsNamedQuery("save") && !IsNamedQuery("findAll")
    ensures !IsNamedQuery("findAllWhere") && !IsNamedQuery("findAndCountAll")
    ensures !IsNamedQuery("findOne") && !IsNamedQuery("sum")
  {
    NotNamed("constructor", 0, 0);
    NotNamed("save", 0, 0);
    NotNamed("findAll", 4, 0);
    NotNamed("findAllWhere", 4, 7);
    NotNamed("findAndCountAll", 4, 5);
    NotNamed("findOne", 4, 0);
    NotNamed("sum", 0, 0);
  }

  /** The construction tests: the base class fails, a subclass gets `"id"` or the key it passes. */
  method ConstructionExamples(model: StoreModel) returns (baseFails: bool, plainKey: string, keyedKey: string)
    ensures baseFails
    ensures plainKey == "id" && keyedKey == "unique_key"
  {
    var failed := New(BaseClass, BaseClass, model, None);
    baseFails := failed == Failure(AbstractInstantiation);
    var test := Subclass("Test", ["constructor"]);
    var plain := New(test, test, model, None);
    plainKey := plain.value.primaryKey;
    var keyed := New(test, test, model, Some("unique_key"));
    keyedKey := keyed.value.primaryKey;
  }
}
