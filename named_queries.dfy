/**
 * Named queries (`initNamedQueries` in src/repository/SQRepository.js): the
 * parse of a method name such as `findAllByNameAndLastName` into its property
 * list, and the where-clause the derived function builds from its arguments.
 */
module NamedQueries {
  import opened Wrappers
  import opened JsValues
  import opened Strings
  import opened Store

  /** Only names starting with `findBy` or `findAllBy` get a derived function. */
  predicate IsNamedQuery(n: string)
  {
    IsPrefix("findBy", n) || IsPrefix("findAllBy", n)
  }

  lemma SeparatorFacts()
    ensures Unbordered("By") && Unbordered("And") && Unbordered("find") && Unbordered("findAll")
  {
    UniqueFirstUnbordered("By");
    UniqueFirstUnbordered("And");
    UniqueFirstUnbordered("find");
    UniqueFirstUnbordered("findAll");
  }

  /** The text before the first `By` of a named query is `find` or `findAll`. */
  lemma LeadingPiece(n: string)
    requires IsNamedQuery(n)
    ensures Split(n, "By")[0] == if IsPrefix("findBy", n) then "find" else "findAll"
  {
    SeparatorFacts();
    LacksFirstChar("find", "By");
    LacksFirstChar("findAll", "By");
    if IsPrefix("findBy", n) {
      PrefixSplit("findBy", n);
      assert "findBy" == "find" + "By";
      SplitLeading("find", "By", n[6..]);
    } else {
      PrefixSplit("findAllBy", n);
      assert "findAllBy" == "findAll" + "By";
      SplitLeading("findAll", "By", n[9..]);
    }
  }

  /**
   * The property list, computed literally: drop every `By`, then drop every
   * occurrence of the text that preceded the first `By`, then split on `And`.
   */
  function ParseProperties(n: string): (properties: seq<string>)
    requires IsNamedQuery(n)
    ensures |properties| >= 1
  {
    var splitted := Split(n, "By");
    LeadingPiece(n);
    var joined := Join(splitted, "");
    Split(Join(Split(joined, splitted[0]), ""), "And")
  }

  /** Property names in the ordinary case: none holds `By`, `And` or `find`. */
  predicate PlainProperty(x: string)
  {
    !Contains(x, "By") && !Contains(x, "And") && !Contains(x, "find")
  }

  /** `And` neither contains `By` or `find` nor combines with a neighbour into one. */
  lemma ConnectorFacts()
    ensures !Contains("And", "By") && NoStraddleOutOf("And", "By") && NoStraddleInto("By", "And")
    ensures !Contains("And", "find") && NoStraddleOutOf("And", "find") && NoStraddleInto("find", "And")
  {
    LacksFirstChar("And", "By");
    LacksFirstChar("And", "find");
    NoStraddleOutOfByChar("And", "By");
    NoStraddleOutOfByChar("And", "find");
    NoStraddleIntoByChar("By", "And");
    NoStraddleIntoByChar("find", "And");
  }

  lemma BodyAvoids(xs: seq<string>)
    requires forall i :: 0 <= i < |xs| ==> PlainProperty(xs[i])
    ensures var body := Join(xs, "And");
            !Contains(body, "By") && !Contains(body, "find") && !Contains(body, "findAll")
  {
    ConnectorFacts();
    JoinAvoids(xs, "And", "By");
    JoinAvoids(xs, "And", "find");
    ContainsPrefixOf(Join(xs, "And"), "find", "findAll");
  }

  /** `find` and `findAll` hold no `By` and cannot overlap themselves. */
  lemma LeadFacts()
    ensures Unbordered("By") && Unbordered("find") && Unbordered("findAll")
    ensures !Contains("find", "By") && !Contains("findAll", "By")
  {
    SeparatorFacts();
    LacksFirstChar("find", "By");
    LacksFirstChar("findAll", "By");
  }

  /** The first round: splitting `lead + "By" + body` on `By` gives the lead and the body. */
  lemma ParseStepBy(lead: string, body: string)
    requires Unbordered("By") && !Contains(lead, "By") && !Contains(body, "By")
    ensures Split(lead + "By" + body, "By") == [lead, body]
  {
    SplitLeading(lead, "By", body);
    SplitWhole(body, "By");
  }

  /** The second round: joining the two pieces and splitting on the lead leaves the body. */
  lemma ParseStepLead(lead: string, body: string)
    requires |lead| > 0 && !Contains(body, lead)
    ensures Split(Join([lead, body], ""), lead) == ["", body]
  {
    assert [lead, body][1..] == [body];
    assert Join([lead, body], "") == lead + "" + body;
    assert lead + "" + body == lead + body;
    SplitAtSep(lead, body);
    SplitWhole(body, lead);
  }

  /** Parsing `lead + "By" + body` yields the `And`-pieces of `body`. */
  lemma ParseFrom(lead: string, body: string)
    requires lead == "find" || lead == "findAll"
    requires !Contains(body, "By") && !Contains(body, lead)
    requires IsNamedQuery(lead + "By" + body)
    ensures ParseProperties(lead + "By" + body) == Split(body, "And")
  {
    LeadFacts();
    ParseStepBy(lead, body);
    ParseStepLead(lead, body);
    assert Join(["", body], "") == body;
  }

  lemma ParseBody(body: string)
    requires !Contains(body, "By") && !Contains(body, "find") && !Contains(body, "findAll")
    ensures ParseProperties("findAllBy" + body) == Split(body, "And")
    ensures ParseProperties("findBy" + body) == Split(body, "And")
  {
    assert "findAllBy" + body == "findAll" + "By" + body;
    assert ("findAllBy" + body)[..9] == "findAllBy";
    ParseFrom("findAll", body);
    assert "findBy" + body == "find" + "By" + body;
    assert ("findBy" + body)[..6] == "findBy";
    ParseFrom("find", body);
  }

  /**
   * The ordinary case: `findAllBy` or `findBy` followed by X1 `And` ... `And` Xk
   * is a named query and yields exactly [X1, ..., Xk], in order and with their
   * capitalisation.
   */
  lemma ParseOrdinary(prefix: string, xs: seq<string>)
    requires prefix == "findAllBy" || prefix == "findBy"
    requires |xs| >= 1
    requires forall i :: 0 <= i < |xs| ==> PlainProperty(xs[i])
    ensures IsNamedQuery(prefix + Join(xs, "And"))
    ensures ParseProperties(prefix + Join(xs, "And")) == xs
  {
    BodyAvoids(xs);
    SeparatorFacts();
    SplitJoin(xs, "And");
    ParseBody(Join(xs, "And"));
    PrefixOfConcat(prefix, Join(xs, "And"));
  }

  /** A name with no `B`, `A` or `f` in it is plain. */
  lemma PlainByChars(x: string)
    requires forall i :: 0 <= i < |x| ==> x[i] != 'B' && x[i] != 'A' && x[i] != 'f'
    ensures PlainProperty(x)
  {
    LacksFirstChar(x, "By");
    LacksFirstChar(x, "And");
    LacksFirstChar(x, "find");
  }

  lemma NameAndLastNamePlain()
    ensures PlainProperty("Name") && PlainProperty("LastName")
  {
    PlainByChars("Name");
    PlainByChars("LastName");
  }

  /** Two plain properties joined by `And`, after either prefix. */
  lemma ParseTwo(prefix: string, a: string, b: string)
    requires prefix == "findAllBy" || prefix == "findBy"
    requires PlainProperty(a) && PlainProperty(b)
    ensures IsNamedQuery(prefix + a + "And" + b)
    ensures ParseProperties(prefix + a + "And" + b) == [a, b]
  {
    JoinPair(prefix, a, b, "And");
    ParseOrdinary(prefix, [a, b]);
  }

  /** A single plain property after either prefix. */
  lemma ParseOne(prefix: string, a: string)
    requires prefix == "findAllBy" || prefix == "findBy"
    requires PlainProperty(a)
    ensures IsNamedQuery(prefix + a)
    ensures ParseProperties(prefix + a) == [a]
  {
    assert Join([a], "And") == a;
    ParseOrdinary(prefix, [a]);
  }

  /**
   * The tested names `findAllByNameAndLastName` and `findByNameAndLastName`
   * (written as their parts) give `["Name", "LastName"]`.
   */
  lemma ParseExamples(n: string)
    requires n == "findAllBy" + "Name" + "And" + "LastName" || n == "findBy" + "Name" + "And" + "LastName"
    ensures IsNamedQuery(n) && ParseProperties(n) == ["Name", "LastName"]
  {
    NameAndLastNamePlain();
    if n == "findAllBy" + "Name" + "And" + "LastName" {
      ParseTwo("findAllBy", "Name", "LastName");
    } else {
      ParseTwo("findBy", "Name", "LastName");
    }
  }

  /** `findAllByName` (written as its parts) gives `["Name"]`. */
  lemma ParseSingleExample(n: string)
    requires n == "findAllBy" + "Name"
    ensures IsNamedQuery(n) && ParseProperties(n) == ["Name"]
  {
    NameAndLastNamePlain();
    ParseOne("findAllBy", "Name");
  }

  /** The key a positional argument is stored under: its property, or `"undefined"` past the list. */
  const UndefinedKey: string := "undefined"

  function KeyAt(properties: seq<string>, i: nat): string
  {
    if i < |properties| then properties[i] else UndefinedKey
  }

  /** An array argument becomes `{ in: arr }`; any other argument is stored as it is. */
  function ArgClause(arg: Value): Value
  {
    if arg.Arr? then Obj(map["in" := arg]) else arg
  }

  /** The where-clause after the loop has stored the given arguments, in order. */
  function WhereOf(properties: seq<string>, args: seq<Value>): map<string, Value>
    decreases |args|
  {
    if |args| == 0 then map[]
    else WhereOf(properties, args[..|args| - 1])[KeyAt(properties, |args| - 1) := ArgClause(args[|args| - 1])]
  }

  /** The where-clause has one key per argument position, and no other. */
  lemma {:induction false} WhereKeys(properties: seq<string>, args: seq<Value>)
    ensures WhereOf(properties, args).Keys == set i | 0 <= i < |args| :: KeyAt(properties, i)
    decreases |args|
  {
    if |args| > 0 {
      WhereKeys(properties, args[..|args| - 1]);
    }
  }

  /** An argument whose key no later argument reuses is what the clause holds for that key. */
  lemma {:induction false} WhereLastWins(properties: seq<string>, args: seq<Value>, i: nat)
    requires i < |args|
    requires forall j :: i < j < |args| ==> KeyAt(properties, j) != KeyAt(properties, i)
    ensures KeyAt(properties, i) in WhereOf(properties, args)
    ensures WhereOf(properties, args)[KeyAt(properties, i)] == ArgClause(args[i])
    decreases |args|
  {
    if i < |args| - 1 {
      WhereLastWins(properties, args[..|args| - 1], i);
    }
  }

  /**
   * With distinct property names and no surplus argument, property i maps to
   * argument i's clause and the properties past the arguments get no entry.
   */
  lemma WhereDistinct(properties: seq<string>, args: seq<Value>)
    requires |args| <= |properties|
    requires forall j, k :: 0 <= j < k < |properties| ==> properties[j] != properties[k]
    ensures forall i :: 0 <= i < |args| ==>
              properties[i] in WhereOf(properties, args) && WhereOf(properties, args)[properties[i]] == ArgClause(args[i])
    ensures forall j :: |args| <= j < |properties| ==> properties[j] !in WhereOf(properties, args)
  {
    forall i | 0 <= i < |args|
      ensures properties[i] in WhereOf(properties, args) && WhereOf(properties, args)[properties[i]] == ArgClause(args[i])
    {
      WhereLastWins(properties, args, i);
    }
    WhereKeys(properties, args);
  }

  /**
   * The derived function for name `n` called with `args`: parse the name, store
   * each argument under its property, and ask the store's `findAll` with every
   * association included. `findBy` names dispatch to `findAll` as well.
   */
  method DerivedQuery(n: string, args: seq<Value>, store: StoreModel) returns (req: Request)
    requires IsNamedQuery(n)
    ensures req == Request(store, FindAll(QueryOptions(Obj(WhereOf(ParseProperties(n), args)), None, None, Undefined, IncludeAll)))
  {
    var properties := ParseProperties(n);
    var where: map<string, Value> := map[];
    for i := 0 to |args|
      invariant where == WhereOf(properties, args[..i])
    {
      assert args[..i + 1][..i] == args[..i];
      if args[i].Arr? {
        where := where[KeyAt(properties, i) := Obj(map["in" := args[i]])];
        continue;
      }
      where := where[KeyAt(properties, i) := args[i]];
    }
    assert args[..|args|] == args;
    req := Request(store, FindAll(QueryOptions(Obj(where), None, None, Undefined, IncludeAll)));
  }

  /**
   * `findAllByNameAndCity("Ann", "Oslo")` filters on `Name` and `City`; an
   * array argument becomes an `in` clause; a surplus argument lands under `"undefined"`.
   */
  lemma WhereExamples()
    ensures WhereOf(["Name", "City"], [Str("Ann"), Str("Oslo")]) == map["Name" := Str("Ann"), "City" := Str("Oslo")]
    ensures WhereOf(["Name", "City"], [Arr([Str("Ann"), Str("Bob")]), Str("Oslo")])
         == map["Name" := Obj(map["in" := Arr([Str("Ann"), Str("Bob")])]), "City" := Str("Oslo")]
    ensures WhereOf(["Name"], [Str("Ann"), Str("Oslo")]) == map["Name" := Str("Ann"), UndefinedKey := Str("Oslo")]
  {
    assert [Str("Ann"), Str("Oslo")][..1] == [Str("Ann")];
    assert [Arr([Str("Ann"), Str("Bob")]), Str("Oslo")][..1] == [Arr([Str("Ann"), Str("Bob")])];
  }
}
