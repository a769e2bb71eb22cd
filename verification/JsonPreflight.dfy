/** The token-level preflight of a backup's JSON (backup/content.go). */
module JsonPreflight {

  import opened Wrappers

  /** What the JSON tokenizer yields; Bad is a syntax error. */
  datatype Token = OpenArray | CloseArray | OpenObject | CloseObject | Text(s: string) | Scalar | Bad

  datatype Tree = Leaf(token: Token) | Array(items: Items) | Object(members: Members)
  datatype Items = NoItems | Item(head: Tree, tail: Items)
  datatype Members = NoMembers | Member(name: string, value: Tree, rest: Members)

  // ---- the tokens of a tree ----

  predicate Plain(token: Token) {
    token.Text? || token.Scalar?
  }

  function Render(tree: Tree): seq<Token> {
    match tree
    case Leaf(token) => [token]
    case Array(items) => [OpenArray] + RenderItems(items)
    case Object(members) => [OpenObject] + RenderMembers(members)
  }

  function RenderItems(items: Items): seq<Token> {
    match items
    case NoItems => [CloseArray]
    case Item(head, tail) => Render(head) + RenderItems(tail)
  }

  function RenderMembers(members: Members): seq<Token> {
    match members
    case NoMembers => [CloseObject]
    case Member(name, value, rest) => [Text(name)] + (Render(value) + RenderMembers(rest))
  }

  function Names(members: Members): seq<string> {
    match members
    case NoMembers => []
    case Member(name, _, rest) => [name] + Names(rest)
  }

  predicate Unique(names: seq<string>) {
    forall i, j :: 0 <= i < j < |names| ==> names[i] != names[j]
  }

  /** Leaves are scalars, and no object repeats a name, at any depth. */
  predicate Wellformed(tree: Tree) {
    match tree
    case Leaf(token) => Plain(token)
    case Array(items) => ItemsWellformed(items)
    case Object(members) => MembersWellformed(members) && Unique(Names(members))
  }

  predicate ItemsWellformed(items: Items) {
    match items
    case NoItems => true
    case Item(head, tail) => Wellformed(head) && ItemsWellformed(tail)
  }

  predicate MembersWellformed(members: Members) {
    match members
    case NoMembers => true
    case Member(_, value, rest) => Wellformed(value) && MembersWellformed(rest)
  }

  /** No name twice and none already seen. */
  predicate Unseen(members: Members, seen: set<string>) {
    match members
    case NoMembers => true
    case Member(name, _, rest) => name !in seen && Unseen(rest, seen + {name})
  }

  lemma {:induction false} UnseenIsUnique(members: Members, seen: set<string>)
    ensures Unseen(members, seen) <==> Unique(Names(members)) && forall i :: 0 <= i < |Names(members)| ==> Names(members)[i] !in seen
  {
    match members
    case NoMembers =>
    case Member(name, value, rest) =>
      UnseenIsUnique(rest, seen + {name});
      var names, more := Names(rest), Names(members);
      assert more[0] == name && forall i :: 0 <= i < |names| ==> more[i + 1] == names[i];
      if Unique(more) && forall i :: 0 <= i < |more| ==> more[i] !in seen {
        forall i | 0 <= i < |names| ensures names[i] !in seen + {name} {
          assert more[0] != more[i + 1];
        }
        forall i, j | 0 <= i < j < |names| ensures names[i] != names[j] {
          assert more[i + 1] != more[j + 1];
        }
      }
      if Unique(names) && forall i :: 0 <= i < |names| ==> names[i] !in seen + {name} {
        forall i, j | 0 <= i < j < |more| ensures more[i] != more[j] {
          assert more[j] == names[j - 1];
          if i > 0 {
            assert more[i] == names[i - 1];
          }
        }
        if name !in seen {
          forall i | 0 <= i < |more| ensures more[i] !in seen {
            if i > 0 {
              assert more[i] == names[i - 1] && names[i - 1] !in seen + {name};
            }
          }
        }
      }
  }

  // ---- parsing, as the recursion consumes tokens ----

  datatype Parsed<+T> = Parsed(value: T, rest: seq<Token>)

  function ParseValue(ts: seq<Token>): (r: Option<Parsed<Tree>>)
    ensures r.Some? ==> |r.value.rest| < |ts|
    decreases |ts|, 0
  {
    if ts == [] then None
    else
      match ts[0]
      case OpenArray =>
        var items := ParseItems(ts[1..]);
        if items.None? then None else Some(Parsed(Array(items.value.value), items.value.rest))
      case OpenObject =>
        var members := ParseMembers(ts[1..], {});
        if members.None? then None else Some(Parsed(Object(members.value.value), members.value.rest))
      case Text(_) => Some(Parsed(Leaf(ts[0]), ts[1..]))
      case Scalar => Some(Parsed(Leaf(ts[0]), ts[1..]))
      case _ => None
  }

  /** Values up to the closing bracket. */
  function ParseItems(ts: seq<Token>): (r: Option<Parsed<Items>>)
    ensures r.Some? ==> |r.value.rest| < |ts|
    decreases |ts|, 1
  {
    if ts == [] || ts[0].CloseObject? then None
    else if ts[0].CloseArray? then Some(Parsed(NoItems, ts[1..]))
    else
      var first := ParseValue(ts);
      if first.None? then None
      else
        var more := ParseItems(first.value.rest);
        if more.None? then None else Some(Parsed(Item(first.value.value, more.value.value), more.value.rest))
  }

  /** Names, none of them seen, and values, up to the closing brace. */
  function ParseMembers(ts: seq<Token>, seen: set<string>): (r: Option<Parsed<Members>>)
    ensures r.Some? ==> |r.value.rest| < |ts|
    decreases |ts|, 1
  {
    if ts == [] || ts[0].CloseArray? then None
    else if ts[0].CloseObject? then Some(Parsed(NoMembers, ts[1..]))
    else if !ts[0].Text? || ts[0].s in seen then None
    else
      var first := ParseValue(ts[1..]);
      if first.None? then None
      else
        var more := ParseMembers(first.value.rest, seen + {ts[0].s});
        if more.None? then None else Some(Parsed(Member(ts[0].s, first.value.value, more.value.value), more.value.rest))
  }

  // ---- parsing inverts rendering ----

  lemma {:induction false} ParseOfRender(tree: Tree, rest: seq<Token>)
    requires Wellformed(tree)
    ensures ParseValue(Render(tree) + rest) == Some(Parsed(tree, rest))
  {
    var ts := Render(tree) + rest;
    match tree
    case Leaf(token) => assert ts[1..] == rest;
    case Array(items) =>
      assert ts[1..] == RenderItems(items) + rest;
      ParseOfItems(items, rest);
    case Object(members) =>
      assert ts[1..] == RenderMembers(members) + rest;
      UnseenIsUnique(members, {});
      ParseOfMembers(members, rest, {});
  }

  lemma RenderStarts(tree: Tree)
    requires Wellformed(tree)
    ensures |Render(tree)| > 0 && !Render(tree)[0].CloseArray? && !Render(tree)[0].CloseObject?
  {}

  lemma {:induction false} ParseOfItems(items: Items, rest: seq<Token>)
    requires ItemsWellformed(items)
    ensures ParseItems(RenderItems(items) + rest) == Some(Parsed(items, rest))
  {
    var ts := RenderItems(items) + rest;
    match items
    case NoItems => assert ts[1..] == rest;
    case Item(head, tail) =>
      var more := RenderItems(tail) + rest;
      assert ts == Render(head) + more;
      RenderStarts(head);
      ParseOfRender(head, more);
      ParseOfItems(tail, rest);
  }

  lemma {:induction false} ParseOfMembers(members: Members, rest: seq<Token>, seen: set<string>)
    requires MembersWellformed(members) && Unseen(members, seen)
    ensures ParseMembers(RenderMembers(members) + rest, seen) == Some(Parsed(members, rest))
  {
    var ts := RenderMembers(members) + rest;
    match members
    case NoMembers => assert ts[1..] == rest;
    case Member(name, value, others) =>
      var more := RenderMembers(others) + rest;
      assert ts[1..] == Render(value) + more;
      ParseOfRender(value, more);
      ParseOfMembers(others, rest, seen + {name});
  }

  lemma {:induction false} RenderOfParse(ts: seq<Token>)
    requires ParseValue(ts).Some?
    ensures var p := ParseValue(ts).value; Wellformed(p.value) && ts == Render(p.value) + p.rest
    decreases |ts|, 0
  {
    assert ts == [ts[0]] + ts[1..];
    match ts[0]
    case OpenArray => RenderOfItems(ts[1..]);
    case OpenObject =>
      RenderOfMembers(ts[1..], {});
      UnseenIsUnique(ParseMembers(ts[1..], {}).value.value, {});
    case _ =>
  }

  lemma {:induction false} RenderOfItems(ts: seq<Token>)
    requires ParseItems(ts).Some?
    ensures var p := ParseItems(ts).value; ItemsWellformed(p.value) && ts == RenderItems(p.value) + p.rest
    decreases |ts|, 1
  {
    if ts[0].CloseArray? {
      assert ts == [ts[0]] + ts[1..];
    } else {
      RenderOfParse(ts);
      RenderOfItems(ParseValue(ts).value.rest);
    }
  }

  lemma {:induction false} RenderOfMembers(ts: seq<Token>, seen: set<string>)
    requires ParseMembers(ts, seen).Some?
    ensures var p := ParseMembers(ts, seen).value;
            MembersWellformed(p.value) && Unseen(p.value, seen) && ts == RenderMembers(p.value) + p.rest
    decreases |ts|, 1
  {
    assert ts == [ts[0]] + ts[1..];
    if !ts[0].CloseObject? {
      RenderOfParse(ts[1..]);
      RenderOfMembers(ParseValue(ts[1..]).value.rest, seen + {ts[0].s});
    }
  }

  // ---- counts of the top-level arrays ----

  function Length(items: Items): nat {
    match items
    case NoItems => 0
    case Item(_, tail) => 1 + Length(tail)
  }

  function MemberTotal(members: Members): nat {
    match members
    case NoMembers => 0
    case Member(_, value, rest) => (if value.Array? then Length(value.items) else 0) + MemberTotal(rest)
  }

  /** The length of each array by its name; "" names a root array. */
  function MemberCounts(members: Members): map<string, nat> {
    match members
    case NoMembers => map[]
    case Member(name, value, rest) =>
      if value.Array? then MemberCounts(rest)[name := Length(value.items)] else MemberCounts(rest)
  }

  datatype Summary = Summary(counts: map<string, nat>, rootArray: bool, total: nat)

  function Summarize(tree: Tree): Summary
    requires !tree.Leaf?
  {
    match tree
    case Array(items) => Summary(map["" := Length(items)], true, Length(items))
    case Object(members) => Summary(MemberCounts(members), false, MemberTotal(members))
  }

  predicate WithinLimit(total: nat, maxRecords: int) {
    total == 0 || total <= maxRecords
  }

  function Preflight(ts: seq<Token>, maxRecords: int): Option<Summary> {
    var p := ParseValue(ts);
    if p.None? || p.value.value.Leaf? || p.value.rest != [] || !WithinLimit(Summarize(p.value.value).total, maxRecords) then None
    else Some(Summarize(p.value.value))
  }

  /** The preflight accepts exactly the tokens of one array or object whose names
      are unique at every depth and whose top-level arrays are within the limit,
      and counts what that tree holds. */
  lemma PreflightAcceptsExactly(ts: seq<Token>, maxRecords: int, summary: Summary)
    ensures Preflight(ts, maxRecords) == Some(summary)
       <==> exists tree :: Accepts(ts, maxRecords, tree, summary)
  {
    if Preflight(ts, maxRecords) == Some(summary) {
      RenderOfParse(ts);
      var tree := ParseValue(ts).value.value;
      assert Render(tree) + [] == Render(tree);
      assert Accepts(ts, maxRecords, tree, summary);
    }
    if exists tree :: Accepts(ts, maxRecords, tree, summary) {
      var tree :| Accepts(ts, maxRecords, tree, summary);
      ParseOfRender(tree, []);
      assert ts + [] == ts;
    }
  }

  predicate Accepts(ts: seq<Token>, maxRecords: int, tree: Tree, summary: Summary) {
    !tree.Leaf? && Wellformed(tree) && ts == Render(tree) && summary == Summarize(tree) && WithinLimit(summary.total, maxRecords)
  }

  /** The value a name is bound to. */
  function Find(members: Members, name: string): Option<Tree> {
    match members
    case NoMembers => None
    case Member(first, value, rest) => if first == name then Some(value) else Find(rest, name)
  }

  /** The counts are the lengths of exactly the array members. */
  lemma CountsAreLengths(members: Members, name: string)
    requires Unique(Names(members))
    ensures name in MemberCounts(members) <==> Find(members, name).Some? && Find(members, name).value.Array?
    ensures name in MemberCounts(members) ==> MemberCounts(members)[name] == Length(Find(members, name).value.items)
  {
    UnseenIsUnique(members, {});
    CountsAreLengthsAfter(members, {}, name);
  }

  lemma {:induction false} CountsAreLengthsAfter(members: Members, seen: set<string>, name: string)
    requires Unseen(members, seen)
    ensures name in seen ==> Find(members, name).None?
    ensures name in MemberCounts(members) <==> Find(members, name).Some? && Find(members, name).value.Array?
    ensures name in MemberCounts(members) ==> MemberCounts(members)[name] == Length(Find(members, name).value.items)
  {
    match members
    case NoMembers =>
    case Member(first, value, rest) => CountsAreLengthsAfter(rest, seen + {first}, name);
  }
}
