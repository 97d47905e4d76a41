/**
 Log template mining, as values: how a line is routed through the prefix tree, how a template
 matches and generalizes, and where its alias leads.
 */
module Mining {
  import opened Options
  import opened Sets

  type Token = string

  const WILDCARD: Token := "<*>"
  const MAX_HOPS: nat := 8

  /** A tree node, by the token count of its lines and the path down to it. */
  datatype Node = Node(length: nat, path: seq<Token>)

  /** A template is known by its creation ordinal; a retired one forwards to an older one. */
  datatype Template = Template(id: nat, tokens: seq<Token>, version: nat, count: nat, leaf: Node, aliasOf: Option<nat>)

  type Tree = map<Node, set<Token>>

  // ---------------------------------------------------------------------------------------
  // Routing.

  function Kids(tree: Tree, at: Node): set<Token> { if at in tree then tree[at] else {} }

  /** The child a token leads to, if it is there already. */
  function Child(kids: set<Token>, token: Token, maxChildren: nat): Option<Token> {
    if token in kids then Some(token)
    else if WILDCARD in kids && |kids| >= maxChildren then Some(WILDCARD)
    else None
  }

  /** The path the first n tokens of a line lead down, if all of it is there. */
  function Route(tree: Tree, line: seq<Token>, n: nat, maxChildren: nat): Option<seq<Token>>
    requires n <= |line|
  {
    if n == 0 then Some([])
    else
      match Route(tree, line, n - 1, maxChildren)
      case None => None
      case Some(path) =>
        match Child(Kids(tree, Node(|line|, path)), line[n - 1], maxChildren)
        case None => None
        case Some(token) => Some(path + [token])
  }

  /** The tree only grew, and a full node grew by nothing but its wildcard. */
  ghost predicate Grown(tree: Tree, later: Tree, maxChildren: nat) {
    forall at: Node ::
      && Kids(tree, at) <= Kids(later, at)
      && (|Kids(tree, at)| >= maxChildren ==> Kids(later, at) <= Kids(tree, at) + {WILDCARD})
  }

  lemma ChildStays(kids: set<Token>, later: set<Token>, token: Token, maxChildren: nat)
    requires kids <= later && (|kids| >= maxChildren ==> later <= kids + {WILDCARD})
    requires Child(kids, token, maxChildren).Some?
    ensures Child(later, token, maxChildren) == Child(kids, token, maxChildren)
  {
    SubsetSize(kids, later);
  }

  /** Once a line has been routed, whatever is inserted later, it is routed to the same leaf. */
  lemma {:induction false} RouteIsStable(tree: Tree, later: Tree, line: seq<Token>, n: nat, maxChildren: nat)
    requires n <= |line| && Grown(tree, later, maxChildren)
    requires Route(tree, line, n, maxChildren).Some?
    ensures Route(later, line, n, maxChildren) == Route(tree, line, n, maxChildren)
  {
    if n > 0 {
      RouteIsStable(tree, later, line, n - 1, maxChildren);
      var at := Node(|line|, Route(tree, line, n - 1, maxChildren).value);
      ChildStays(Kids(tree, at), Kids(later, at), line[n - 1], maxChildren);
    }
  }

  lemma GrownTwice(a: Tree, b: Tree, c: Tree, maxChildren: nat)
    requires Grown(a, b, maxChildren) && Grown(b, c, maxChildren)
    ensures Grown(a, c, maxChildren)
  {
    forall at: Node
      ensures Kids(a, at) <= Kids(c, at)
      ensures |Kids(a, at)| >= maxChildren ==> Kids(c, at) <= Kids(a, at) + {WILDCARD}
    {
      SubsetSize(Kids(a, at), Kids(b, at));
    }
  }

  // ---------------------------------------------------------------------------------------
  // Matching.

  predicate Fits(pattern: Token, token: Token) { pattern == WILDCARD || pattern == token }

  /** How many positions of a line a pattern fits. */
  function Hits(pattern: seq<Token>, line: seq<Token>, n: nat): nat
    requires n <= |pattern| && n <= |line|
  {
    if n == 0 then 0 else Hits(pattern, line, n - 1) + if Fits(pattern[n - 1], line[n - 1]) then 1 else 0
  }

  predicate Matches(pattern: seq<Token>, line: seq<Token>) {
    |pattern| == |line| && forall i :: 0 <= i < |line| ==> Fits(pattern[i], line[i])
  }

  lemma {:induction false} HitsAtMost(pattern: seq<Token>, line: seq<Token>, n: nat)
    requires n <= |pattern| && n <= |line|
    ensures Hits(pattern, line, n) <= n
    ensures (forall i :: 0 <= i < n ==> Fits(pattern[i], line[i])) ==> Hits(pattern, line, n) == n
  {
    if n > 0 { HitsAtMost(pattern, line, n - 1); }
  }

  /** The pattern with a wildcard wherever the line differs. */
  /** The positions a pattern fits, counted. */
  lemma {:induction false} HitsCount(pattern: seq<Token>, line: seq<Token>, n: nat)
    requires n <= |pattern| && n <= |line|
    ensures Hits(pattern, line, n) == |set i: nat | i < n && (pattern[i] == WILDCARD || pattern[i] == line[i])|
  {
    var fitting := set i: nat | i < n && (pattern[i] == WILDCARD || pattern[i] == line[i]);
    if n > 0 {
      HitsCount(pattern, line, n - 1);
      var before := set i: nat | i < n - 1 && (pattern[i] == WILDCARD || pattern[i] == line[i]);
      assert fitting == before + if Fits(pattern[n - 1], line[n - 1]) then {n - 1} else {};
    } else {
      assert fitting == {};
    }
  }

  function Generalized(pattern: seq<Token>, line: seq<Token>): (g: seq<Token>)
    requires |pattern| == |line|
    ensures |g| == |pattern|
  {
    seq(|pattern|, (i: int) requires 0 <= i < |pattern| => if Fits(pattern[i], line[i]) then pattern[i] else WILDCARD)
  }

  /** A pattern only ever turns tokens into wildcards. */
  predicate Widens(pattern: seq<Token>, later: seq<Token>) {
    |later| == |pattern| && forall i :: 0 <= i < |pattern| ==> later[i] == pattern[i] || later[i] == WILDCARD
  }

  lemma GeneralizedIsWider(pattern: seq<Token>, line: seq<Token>)
    requires |pattern| == |line|
    ensures Matches(Generalized(pattern, line), line) && Widens(pattern, Generalized(pattern, line))
    ensures Generalized(pattern, line) == pattern <==> Matches(pattern, line)
  {
    if Generalized(pattern, line) == pattern {
      forall i | 0 <= i < |line| ensures Fits(pattern[i], line[i]) {
        assert Generalized(pattern, line)[i] == pattern[i];
      }
    }
  }

  // ---------------------------------------------------------------------------------------
  // Aliases.

  /** A retired template forwards to an older one whose pattern has the same length. */
  ghost predicate AliasesOk(ts: seq<Template>) {
    forall s :: 0 <= s < |ts| && ts[s].aliasOf.Some? ==>
      ts[s].aliasOf.value < s && |ts[ts[s].aliasOf.value].tokens| == |ts[s].tokens|
  }

  /** The hops from a template to the end of its alias chain. */
  ghost function Depth(ts: seq<Template>, s: nat): nat
    requires AliasesOk(ts) && s < |ts|
    decreases s
  {
    if ts[s].aliasOf.None? then 0 else 1 + Depth(ts, ts[s].aliasOf.value)
  }

  /** Where at most hops alias edges lead. */
  ghost function Follow(ts: seq<Template>, s: nat, hops: nat): (r: nat)
    requires AliasesOk(ts) && s < |ts|
    ensures r <= s && |ts[r].tokens| == |ts[s].tokens|
    decreases hops
  {
    if hops == 0 || ts[s].aliasOf.None? then s else Follow(ts, ts[s].aliasOf.value, hops - 1)
  }

  /** A bounded walk arrives at a live template exactly when the chain is no longer than it. */
  lemma {:induction false} FollowArrivesExactly(ts: seq<Template>, s: nat, hops: nat)
    requires AliasesOk(ts) && s < |ts|
    ensures ts[Follow(ts, s, hops)].aliasOf.None? <==> Depth(ts, s) <= hops
    decreases hops
  {
    if hops > 0 && ts[s].aliasOf.Some? { FollowArrivesExactly(ts, ts[s].aliasOf.value, hops - 1); }
  }

  // ---------------------------------------------------------------------------------------
  // Counts.

  /** The lines the first n templates have absorbed. */
  function Counted(ts: seq<Template>, n: nat): nat
    requires n <= |ts|
  {
    if n == 0 then 0 else Counted(ts, n - 1) + ts[n - 1].count
  }

  lemma {:induction false} CountedSame(ts: seq<Template>, us: seq<Template>, n: nat)
    requires n <= |ts| && n <= |us| && forall s :: 0 <= s < n ==> ts[s].count == us[s].count
    ensures Counted(ts, n) == Counted(us, n)
  {
    if n > 0 { CountedSame(ts, us, n - 1); }
  }

  lemma {:induction false} CountedChange(ts: seq<Template>, s: nat, t: Template, n: nat)
    requires s < |ts| && n <= |ts|
    ensures s < n ==> Counted(ts[s := t], n) + ts[s].count == Counted(ts, n) + t.count
    ensures n <= s ==> Counted(ts[s := t], n) == Counted(ts, n)
  {
    if n > 0 { CountedChange(ts, s, t, n - 1); }
  }

  lemma CountedAppend(ts: seq<Template>, t: Template)
    ensures Counted(ts + [t], |ts| + 1) == Counted(ts, |ts|) + t.count
  {
    CountedSame(ts + [t], ts, |ts|);
  }
}
