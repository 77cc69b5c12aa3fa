/** The WHERE-clause builder both GetFilms snapshots share: a strings.Builder,
    the hasWhere flag, the next placeholder number paramNum and the parameter
    slice, threaded through one filter at a time. */
module Clauses {
  import opened Common
  import opened Sql

  datatype Builder = Builder(frags: seq<Frag>, params: seq<Param>, hasWhere: bool, paramNum: nat)

  /** The connectors written so far form "WHERE " followed by "AND "s, and
      hasWhere records whether the "WHERE " has been written. */
  predicate Chained(b: Builder) {
    Connectors(b.frags) == Chain(|Connectors(b.frags)|) && (b.hasWhere <==> Connectors(b.frags) != [])
  }

  /** The placeholders written so far are $1 .. $(paramNum-1), in order. */
  predicate Numbered(b: Builder) {
    Consecutive(Placeholders(b.frags)) && |Placeholders(b.frags)| + 1 == b.paramNum
  }

  /** A builder that holds only the SELECT head: no filter yet, paramNum 1. */
  function Start(head: string): (b: Builder)
    ensures Chained(b) && Numbered(b) && Connectors(b.frags) == [] && b.params == []
  {
    assert [Kw(head)][1..] == [];
    Builder([Kw(head)], [], false, 1)
  }

  /** In a chain of filters only the first connector is "WHERE ". */
  lemma {:induction false} ChainHasOneWhere(n: nat)
    ensures forall i :: 0 <= i < n ==> (Chain(n)[i] == Where <==> i == 0)
  {
    if n > 0 {
      ChainHasOneWhere(n - 1);
      assert forall i :: 0 <= i < n - 1 ==> Chain(n)[i] == Chain(n - 1)[i];
    }
  }

  /** `if !hasWhere { "WHERE " } else { "AND " }`. */
  function Connect(b: Builder): (c: Builder)
    requires Chained(b)
    ensures Chained(c) && c.hasWhere
    ensures Connectors(c.frags) == Connectors(b.frags) + [if b.hasWhere then And else Where]
    ensures Placeholders(c.frags) == Placeholders(b.frags)
    ensures c.params == b.params && c.paramNum == b.paramNum
  {
    var w := if b.hasWhere then And else Where;
    var c := Builder(b.frags + [Conn(w)], b.params, true, b.paramNum);
    assert [Conn(w)][1..] == [];
    ConnectorsAppend(b.frags, [Conn(w)]);
    PlaceholdersAppend(b.frags, [Conn(w)]);
    c
  }

  /** One optional filter: the connector, then `before $paramNum after`,
      paramNum++ and the bound parameter appended if there is one. */
  function Filter(b: Builder, before: string, after: string, bound: Option<Param>): (c: Builder)
    requires Chained(b) && Numbered(b)
    ensures Chained(c) && Numbered(c) && c.hasWhere
    ensures Connectors(c.frags) == Connectors(b.frags) + [if b.hasWhere then And else Where]
    ensures Placeholders(c.frags) == Placeholders(b.frags) + [b.paramNum]
    ensures c.paramNum == b.paramNum + 1
    ensures c.params == b.params + (if bound.Some? then [bound.value] else [])
  {
    var d := Connect(b);
    var clause := Slot(before, d.paramNum) + Text(after);
    ConnectorsAppend(Slot(before, d.paramNum), Text(after));
    PlaceholdersAppend(Slot(before, d.paramNum), Text(after));
    ConnectorsAppend(d.frags, clause);
    PlaceholdersAppend(d.frags, clause);
    ConsecutiveExtend(Placeholders(d.frags), d.paramNum);
    Builder(d.frags + clause, d.params + (if bound.Some? then [bound.value] else []), true, d.paramNum + 1)
  }

  /** A filter the code writes only when its value is set. */
  function Optional(b: Builder, present: bool, before: string, after: string, bound: Option<Param>): (c: Builder)
    requires Chained(b) && Numbered(b)
    ensures Chained(c) && Numbered(c)
    ensures |Connectors(c.frags)| == |Connectors(b.frags)| + Count(present)
    ensures c.paramNum == b.paramNum + Count(present)
    ensures c.params == b.params + Bound(present, bound)
  {
    if present then Filter(b, before, after, bound) else b
  }

  /** The parameter a filter appends: none when it is not written or binds nothing. */
  function Bound(present: bool, bound: Option<Param>): seq<Param> {
    if present && bound.Some? then [bound.value] else []
  }

  /** Three filters in a row from an empty parameter list bind their three
      parameter lists, concatenated. */
  lemma ThreeBounds(p0: seq<Param>, p1: seq<Param>, p2: seq<Param>, p3: seq<Param>, x: seq<Param>, y: seq<Param>, z: seq<Param>)
    requires p0 == [] && p1 == p0 + x && p2 == p1 + y && p3 == p2 + z
    ensures p3 == x + y + z
  {
  }

  /** 1 for a filter that is set, 0 for one that is not. */
  function Count(present: bool): nat {
    if present then 1 else 0
  }
}
