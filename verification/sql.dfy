/** SQL text as the repositories assemble it: a sequence of fragments, each a
    piece of literal text or a numbered placeholder, and the parameter list
    handed to the driver. The SQL is assembled here, never interpreted. */
module Sql {
  import Decimal
  import opened Common

  /** The two words that introduce a filter clause. */
  datatype Connector = Where | And

  /** Literal text, a clause connector, or the placeholder `$n`. */
  datatype Frag = Kw(text: string) | Conn(word: Connector) | Ph(n: nat)

  function Word(c: Connector): string {
    match c
    case Where => "WHERE "
    case And => "AND "
  }

  /** A value bound to a placeholder. */
  datatype Param = Str(s: string) | Num(n: nat) | Rating(r: real) | Strings(s: string)

  datatype Query = Query(frags: seq<Frag>, params: seq<Param>)

  /** The text the strings.Builder holds: a placeholder is "$" + strconv.Itoa(n). */
  function Render(q: seq<Frag>): string {
    if q == [] then ""
    else (match q[0] case Kw(t) => t case Conn(c) => Word(c) case Ph(n) => "$" + Decimal.Itoa(n)) + Render(q[1..])
  }

  /** The placeholder numbers in the order they are written. */
  function Placeholders(q: seq<Frag>): seq<nat> {
    if q == [] then [] else (if q[0].Ph? then [q[0].n] else []) + Placeholders(q[1..])
  }

  lemma {:induction false} PlaceholdersAppend(a: seq<Frag>, b: seq<Frag>)
    ensures Placeholders(a + b) == Placeholders(a) + Placeholders(b)
  {
    if a != [] {
      assert (a + b)[0] == a[0];
      assert (a + b)[1..] == a[1..] + b;
      PlaceholdersAppend(a[1..], b);
    } else {
      assert a + b == b;
    }
  }

  /** The clause connectors in the order they are written. */
  function Connectors(q: seq<Frag>): seq<Connector> {
    if q == [] then [] else (if q[0].Conn? then [q[0].word] else []) + Connectors(q[1..])
  }

  lemma {:induction false} ConnectorsAppend(a: seq<Frag>, b: seq<Frag>)
    ensures Connectors(a + b) == Connectors(a) + Connectors(b)
  {
    if a != [] {
      assert (a + b)[0] == a[0];
      assert (a + b)[1..] == a[1..] + b;
      ConnectorsAppend(a[1..], b);
    } else {
      assert a + b == b;
    }
  }

  /** Literal text alone. */
  function Text(t: string): (f: seq<Frag>)
    ensures Placeholders(f) == [] && Connectors(f) == []
  {
    assert [Kw(t)][1..] == [];
    [Kw(t)]
  }

  /** Literal text followed by the placeholder `$n`. */
  function Slot(before: string, n: nat): (f: seq<Frag>)
    ensures Placeholders(f) == [n] && Connectors(f) == []
  {
    var f := [Kw(before), Ph(n)];
    assert f[1..][1..] == [];
    assert Placeholders(f[1..]) == [n] && Connectors(f[1..]) == [];
    f
  }

  /** The numbers 1, 2, …, k in this order. */
  function Range(k: nat): (r: seq<nat>)
    ensures |r| == k
  {
    if k == 0 then [] else Range(k - 1) + [k]
  }

  /** $1, $2, …, $k, each once and in this order. */
  predicate Consecutive(ps: seq<nat>) {
    ps == Range(|ps|)
  }

  /** A consecutive run numbers its i-th placeholder i + 1. */
  lemma {:induction false} ConsecutiveIndex(ps: seq<nat>)
    requires Consecutive(ps)
    ensures forall i :: 0 <= i < |ps| ==> ps[i] == i + 1
  {
    if ps != [] {
      var init := ps[..|ps| - 1];
      assert ps == Range(|ps| - 1) + [|ps|];
      assert init == Range(|ps| - 1);
      ConsecutiveIndex(init);
    }
  }

  /** Placeholders and parameters agree: the query writes $1..$k in order and
      binds exactly k parameters, so $i takes params[i-1]. */
  predicate Agrees(q: Query) {
    Consecutive(Placeholders(q.frags)) && |Placeholders(q.frags)| == |q.params|
  }

  /** A placeholder written twice in a row breaks the consecutive numbering. */
  lemma RepeatNotConsecutive(ps: seq<nat>, k: nat)
    requires k + 1 < |ps| && ps[k] == ps[k + 1]
    ensures !Consecutive(ps)
  {
    if Consecutive(ps) {
      ConsecutiveIndex(ps);
      assert false;
    }
  }

  /** Numbering on from $k continues a consecutive run $1..$k. */
  lemma ConsecutiveExtend(ps: seq<nat>, n: nat)
    requires Consecutive(ps) && n == |ps| + 1
    ensures Consecutive(ps + [n])
  {
    assert Range(n) == Range(n - 1) + [n];
  }

  /** Appending two more placeholders $n, $n+1 to a consecutive run $1..$(n-1). */
  lemma AppendTwoNumbered(a: seq<Frag>, b: seq<Frag>, n: nat)
    requires Consecutive(Placeholders(a)) && |Placeholders(a)| + 1 == n
    requires Placeholders(b) == [n, n + 1]
    ensures Consecutive(Placeholders(a + b)) && |Placeholders(a + b)| == n + 1
  {
    PlaceholdersAppend(a, b);
    ConsecutiveExtend(Placeholders(a), n);
    ConsecutiveExtend(Placeholders(a) + [n], n + 1);
    assert Placeholders(a) + [n, n + 1] == Placeholders(a) + [n] + [n + 1];
  }

  /** Appending text without connectors leaves the connectors as they are. */
  lemma AppendUnconnected(a: seq<Frag>, b: seq<Frag>)
    requires Connectors(b) == []
    ensures Connectors(a + b) == Connectors(a)
  {
    ConnectorsAppend(a, b);
  }

  /** A clause "WHERE" followed by "AND"s: the chain of `count` filters. */
  function Chain(count: nat): (cs: seq<Connector>)
    ensures |cs| == count
  {
    if count == 0 then [] else Chain(count - 1) + [if count == 1 then Where else And]
  }

  /** The text of a single placeholder reads back as its number. */
  lemma PlaceholderText(n: nat)
    requires n <= Decimal.MaxUint64
    ensures Render([Ph(n)])[0] == '$'
    ensures Decimal.ParseUint(Render([Ph(n)])[1..]) == Some(n)
  {
    assert Render([Ph(n)]) == "$" + Decimal.Itoa(n);
    assert Render([Ph(n)])[1..] == Decimal.Itoa(n);
    Decimal.ParseItoa(n);
  }

  lemma {:induction false} RenderAppend(a: seq<Frag>, b: seq<Frag>)
    ensures Render(a + b) == Render(a) + Render(b)
  {
    if a == [] {
      assert a + b == b;
    } else {
      assert (a + b)[0] == a[0];
      assert (a + b)[1..] == a[1..] + b;
      RenderAppend(a[1..], b);
    }
  }

  lemma TextRenders(t: string)
    ensures Render(Text(t)) == t
  {
    assert Text(t)[1..] == [];
  }

  lemma SlotRenders(before: string, n: nat)
    ensures Render(Slot(before, n)) == before + "$" + Decimal.Itoa(n)
  {
    var f := Slot(before, n);
    assert f[1..][1..] == [];
    assert Render(f[1..]) == "$" + Decimal.Itoa(n) + "";
    assert Render(f) == before + ("$" + Decimal.Itoa(n) + "");
  }

  /** Items separated by single commas, as the write statements list them. */
  function Join(items: seq<string>): string {
    if items == [] then ""
    else if |items| == 1 then items[0]
    else Join(items[..|items| - 1]) + "," + items[|items| - 1]
  }

  /** Writing "," before every item but the first builds the joined list. */
  lemma JoinSnoc(items: seq<string>, joined: string, sep: string, item: string)
    requires joined == Join(items)
    requires sep == if items == [] then "" else ","
    ensures joined + sep + item == Join(items + [item])
  {
    var all := items + [item];
    assert all[..|all| - 1] == items;
    if items == [] {
      assert joined + sep + item == item;
    }
  }

  /** Text, then a body, then a tail: the rendered pieces in order. */
  lemma WrapRenders(head: string, body: seq<Frag>, tail: seq<Frag>)
    ensures Render(Text(head) + body + tail) == head + Render(body) + Render(tail)
  {
    RenderAppend(Text(head), body);
    RenderAppend(Text(head) + body, tail);
    TextRenders(head);
  }

  /** Text, then a run numbered $1..$(k-1), then a slot $k: numbered $1..$k. */
  lemma WrapNumbered(head: string, body: seq<Frag>, before: string, k: nat)
    requires Consecutive(Placeholders(body)) && |Placeholders(body)| + 1 == k
    ensures var ps := Placeholders(Text(head) + body + Slot(before, k));
            Consecutive(ps) && |ps| == k && ps[k - 1] == k
  {
    PlaceholdersAppend(Text(head), body);
    PlaceholdersAppend(Text(head) + body, Slot(before, k));
    ConsecutiveExtend(Placeholders(body), k);
  }

  /** Appending a separator and an item to a rendered joined list. */
  lemma RenderJoinStep(body: seq<Frag>, sep: seq<Frag>, item: seq<Frag>, items: seq<string>)
    requires Render(body) == Join(items)
    requires Render(sep) == if items == [] then "" else ","
    ensures Render(body + sep + item) == Join(items + [Render(item)])

  {
    RenderAppend(body, sep);
    RenderAppend(body + sep, item);
    JoinSnoc(items, Render(body), Render(sep), Render(item));
  }

  /** The separator written before every item but the first. */
  function Comma(first: bool): (f: seq<Frag>)
    ensures Placeholders(f) == [] && Connectors(f) == []
  {
    if first then [] else
      assert [Kw(",")][1..] == [];
      [Kw(",")]
  }

  lemma CommaRenders(first: bool)
    ensures Render(Comma(first)) == if first then "" else ","
  {
    if !first {
      assert Comma(first)[1..] == [];
    }
  }

  /** Concatenation regrouped: the last piece's own parts follow on. */
  lemma Regroup<T>(a: seq<T>, b: seq<T>, c: seq<T>, d: seq<T>, e: seq<T>)
    ensures a + b + (c + d + e) == a + b + c + d + e
  {
  }

  /** A joined triple regrouped into the surrounding concatenation. */
  lemma Assoc3<T>(a: seq<T>, b: seq<T>, c: seq<T>, d: seq<T>)
    ensures a + (b + c + d) == a + b + c + d
  {
  }
}
