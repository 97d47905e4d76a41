/** One partition of the log template miner, mined line by line. */
module Partitions {
  import opened Miners
  import opened Mining
  import opened Options
  import opened Sets

  const OTHER_TEXT: seq<Token> := ["__other__"]

  /** A leaf holds a template at place i, and none before it fits the line as often. */
  ghost predicate IsFirst(ts: seq<Template>, group: seq<nat>, i: int, s: nat, line: seq<Token>, hits: nat) {
    && 0 <= i < |group| && group[i] == s
    && forall j :: 0 <= j < i && group[j] < |ts| && |ts[group[j]].tokens| == |line| ==> Hits(ts[group[j]].tokens, line, |line|) < hits
  }

  /** Some template of the line's leaf is similar enough to the line. */
  ghost predicate Similar(ts: seq<Template>, groups: map<Node, seq<nat>>, leaf: Node, line: seq<Token>,
                          similarity: real)
    requires line != []
  {
    exists s :: s < |ts| && leaf in groups && s in groups[leaf] && SimilarTo(ts[s], line, similarity)
  }

  ghost predicate SimilarTo(t: Template, line: seq<Token>, similarity: real)
    requires line != []
  {
    |t.tokens| == |line| && Hits(t.tokens, line, |line|) as real / |line| as real >= similarity
  }

  /** The registrar's answer can be a new template's ID. */
  ghost predicate Usable(ts: seq<Template>, live: set<nat>, otherID: nat, id: nat) {
    id != 0 && id != otherID && forall s :: s in live && s < |ts| ==> ts[s].id != id
  }

  /** The state of a partition, as a value. */
  datatype State = State(ts: seq<Template>, live: set<nat>, groups: map<Node, seq<nat>>, otherID: nat,
                         text: map<nat, seq<Token>>, alias: map<nat, nat>)

  ghost predicate CoreOf(m: State) { Core(m.ts, m.live, m.groups, m.otherID, m.text, m.alias) }

  /** The state after a template is widened by a line. */
  function Widened(m: State, s: nat, line: seq<Token>): State
    requires s < |m.ts| && |m.ts[s].tokens| == |line|
  {
    var t := Wider(m.ts[s], line);
    State(m.ts[s := t], m.live, m.groups, m.otherID, m.text[t.id := t.tokens], m.alias)
  }

  /** The state after the younger of two templates is retired into the older. */
  function Joined(m: State, survivor: nat, retired: nat): State
    requires survivor < |m.ts| && retired < |m.ts|
  {
    State(Converged(m.ts, survivor, retired), m.live - {retired}, m.groups, m.otherID, m.text - {m.ts[retired].id},
          Forwarded(m.alias, m.ts[retired].id, m.ts[survivor].id))
  }

  function Grafted(m: State, t: Template): State {
    State(m.ts + [t], m.live + {|m.ts|}, Extended(m.groups, t.leaf, |m.ts|), m.otherID, m.text[t.id := t.tokens], m.alias)
  }

  class Partition {
    const maxTemplates: nat
    const depth: nat
    const maxChildren: nat
    const similarity: real

    var tree: Tree
    var groups: map<Node, seq<nat>>
    var templates: seq<Template>
    var live: set<nat>
    var otherID: nat
    var overflow: nat
    var converged: nat
    var failures: nat
    var text: map<nat, seq<Token>>
    var alias: map<nat, nat>
    ghost var lines: nat       // lines mined
    ghost var plain: bool      // no line spelled a wildcard out

    function Current(): State
      reads this
    {
      State(templates, live, groups, otherID, text, alias)
    }

    ghost predicate Valid()
      reads this
    {
      && similarity <= 1.0
      && CoreOf(Current())
      && |live| <= maxTemplates
      && Counted(templates, |templates|) + overflow == lines
      && (plain ==> Tidy(templates, live, groups, tree, depth, maxChildren))
    }

    constructor (maxTemplates: nat, depth: nat, maxChildren: nat, similarity: real)
      requires 0.0 < similarity <= 1.0
      ensures Valid() && lines == 0 && plain && templates == [] && overflow == 0
    {
      this.maxTemplates, this.depth, this.maxChildren, this.similarity := maxTemplates, depth, maxChildren, similarity;
      tree, groups, templates, live := map[], map[], [], {};
      otherID, overflow, converged, failures := 0, 0, 0, 0;
      text, alias := map[], map[];
      lines, plain := 0, true;
    }

    /** The overflow identity, allocated on first use and asked for again while it is missing. */
    method EnsureOther(givenOther: nat)
      requires Valid() && forall s :: 0 <= s < |templates| ==> templates[s].id != givenOther
      modifies `otherID, `failures, `text
      ensures Valid() && otherID == if old(otherID) == 0 then givenOther else old(otherID)
    {
      if otherID == 0 {
        if givenOther == 0 {
          failures := failures + 1;
        } else {
          otherID := givenOther;
          text := text[givenOther := OTHER_TEXT];
        }
      }
    }

    /** Walks a line down to its leaf, making the nodes that are not there; a full node sends what
        it has no child for to its wildcard. */
    method Descend(line: seq<Token>) returns (leaf: Node)
      modifies `tree
      ensures Grown(old(tree), tree, maxChildren)
      ensures Route(tree, line, Steps(depth, line), maxChildren) == Some(leaf.path) && leaf.length == |line|
    {
      hide Grown, Child, Kids;
      var path: seq<Token> := [];
      GrownSelf(tree, maxChildren);
      var i := 0;
      while i < Steps(depth, line)
        invariant 0 <= i <= Steps(depth, line)
        invariant Grown(old(tree), tree, maxChildren) && Route(tree, line, i, maxChildren) == Some(path)
      {
        var at, token := Node(|line|, path), line[i];
        var next := NextChild(Kids(tree, at), token, maxChildren);
        var later := tree[at := Kids(tree, at) + {next}];
        NextChildGrows(tree, at, token, maxChildren);
        GrownTwice(old(tree), tree, later, maxChildren);
        RouteIsStable(tree, later, line, i, maxChildren);
        tree := later;
        path := path + [next];
        i := i + 1;
      }
      leaf := Node(|line|, path);
    }

    /** The first of the leaf's templates that fits the line in most places. */
    method BestMatch(leaf: Node, line: seq<Token>) returns (best: Option<nat>, hits: nat)
      requires GroupsOk(templates, groups)
      ensures best.None? ==> forall s :: s < |templates| && leaf in groups && s in groups[leaf] ==> |templates[s].tokens| != |line|
      ensures best.Some? ==> best.value < |templates| && |templates[best.value].tokens| == |line|
      ensures best.Some? ==> hits == Hits(templates[best.value].tokens, line, |line|)
      ensures best.Some? ==> forall s :: s < |templates| && leaf in groups && s in groups[leaf] && |templates[s].tokens| == |line| ==>
        Hits(templates[s].tokens, line, |line|) <= hits
      ensures best.Some? ==> leaf in groups && exists i :: IsFirst(templates, groups[leaf], i, best.value, line, hits)
    {
      best, hits := None, 0;
      if leaf !in groups { return; }
      var group := groups[leaf];
      var i := 0;
      ghost var at := 0;
      while i < |group|
        invariant i <= |group|
        invariant best.None? ==> forall j :: 0 <= j < i ==> |templates[group[j]].tokens| != |line|
        invariant best.Some? ==> best.value < |templates| && |templates[best.value].tokens| == |line|
        invariant best.Some? ==> hits == Hits(templates[best.value].tokens, line, |line|)
        invariant best.Some? ==> forall j :: 0 <= j < i && |templates[group[j]].tokens| == |line| ==>
          Hits(templates[group[j]].tokens, line, |line|) <= hits
        invariant best.Some? ==> at < i && IsFirst(templates, group, at, best.value, line, hits)
      {
        var t := templates[group[i]].tokens;
        if |t| == |line| {
          var h := Hits(t, line, |line|);
          if best.None? || h > hits { best, hits, at := Some(group[i]), h, i; }
        }
        i := i + 1;
      }
    }

    /** At most eight hops along the alias edges. */
    method ResolveAlias(s: nat) returns (r: nat)
      requires AliasesOk(templates) && s < |templates|
      ensures r == Follow(templates, s, MAX_HOPS)
      ensures templates[r].aliasOf.None? <==> Depth(templates, s) <= MAX_HOPS
    {
      r := s;
      var hops := 0;
      while hops < MAX_HOPS && templates[r].aliasOf.Some?
        invariant 0 <= hops <= MAX_HOPS && r < |templates|
        invariant Follow(templates, r, MAX_HOPS - hops) == Follow(templates, s, MAX_HOPS)
      {
        r := templates[r].aliasOf.value;
        hops := hops + 1;
      }
      FollowArrivesExactly(templates, s, MAX_HOPS);
    }

    /** Folds a line into a template, which may thereby come to equal another and converge with
        it. Returns the template that counts the line. */
    method Absorb(s: nat, line: seq<Token>) returns (r: nat)
      requires Valid() && s < |templates| && |templates[s].tokens| == |line|
      modifies `templates, `live, `text, `alias, `converged, `lines
      ensures Valid() && lines == old(lines) + 1
      ensures Evolved(old(templates), templates) && |templates| == |old(templates)|
      ensures r < |templates| && Matches(templates[r].tokens, line)
    {
      hide Core, Evolved, Tidy, Counted, Matches, Wider, Tallied;
      ghost var before := templates;
      r := s;
      EvolvedSelf(templates);
      GeneralizedIsWider(templates[s].tokens, line);
      if Generalized(templates[s].tokens, line) != templates[s].tokens {
        r := WidenAndConverge(s, line);
      }
      ghost var wide := templates;
      TallyCore(templates, live, groups, otherID, text, alias, tree, depth, maxChildren, r);
      TalliedTokens(templates, r);
      templates := templates[r := Tallied(templates[r], 1)];
      lines := lines + 1;
      EvolvedTwice(before, wide, templates);
    }

    method WidenAndConverge(s: nat, line: seq<Token>) returns (r: nat)
      requires Valid() && s < |templates| && |templates[s].tokens| == |line| && !Matches(templates[s].tokens, line)
      modifies `templates, `live, `text, `alias, `converged
      ensures Valid() && r < |templates| && |templates| == |old(templates)|
      ensures Evolved(old(templates), templates) && Matches(templates[r].tokens, line)
    {
      hide CoreOf, Evolved, Tidy, Counted, Widened, Joined, Matches;
      var wide := Widened(Current(), s, line);
      WidenedIs(Current(), s, line);
      var twin := FindTwin(wide.ts, live, s);
      r := s;
      var result := wide;
      if twin.Some? {
        var retired;
        r, retired := if twin.value < s then twin.value else s, if twin.value < s then s else twin.value;
        result := Joined(wide, r, retired);
        converged := converged + 1;
      }
      WidenGood(Current(), tree, depth, maxChildren, s, line, twin);
      templates, live, text, alias := result.ts, result.live, result.text, result.alias;
    }

    /** Mines one line: it is counted by exactly one template, or by the overflow. given and
        givenOther are what the registrar would give, zero for nothing. */
    method Mine(line: seq<Token>, given: nat, givenOther: nat) returns (id: nat, isOther: bool)
      requires Valid()
      requires forall s :: 0 <= s < |templates| ==> templates[s].id != givenOther && (templates[s].id == given ==> s in live)
      modifies this
      ensures Valid() && lines == old(lines) + 1 && plain == (old(plain) && WILDCARD !in line)
      ensures Evolved(old(templates), templates) && |templates| <= |old(templates)| + 1
      ensures Grown(old(tree), tree, maxChildren)
      ensures isOther ==> id == otherID && templates == old(templates) && overflow == old(overflow) + 1
      ensures !isOther ==> overflow == old(overflow)
      ensures !isOther ==> exists s :: 0 <= s < |templates| && templates[s].id == id && Matches(templates[s].tokens, line)
      ensures line == [] ==> isOther
      ensures line != [] ==> Route(tree, line, Steps(depth, line), maxChildren).Some?
      ensures line != [] ==>
        var leaf := Node(|line|, Route(tree, line, Steps(depth, line), maxChildren).value);
        if Similar(old(templates), old(groups), leaf, line, similarity) then !isOther && |templates| == |old(templates)|
        else if |old(live)| < maxTemplates && Usable(old(templates), old(live), otherID, given) then
          !isOther && id == given && templates == old(templates) + [Template(given, line, 0, 1, leaf, None)]
        else isOther
    {
      hide Partition.Valid, Evolved, Grown, Matches, Route, Hits, SimilarTo;
      EnsureOther(givenOther);
      GrownSelf(tree, maxChildren);
      EvolvedSelf(templates);
      if line == [] {
        Overflow(line);
        return otherID, true;
      }
      var leaf := Place(line);
      var best, hits := FindBest(leaf, line);
      BestDecides(templates, groups, leaf, line, best, hits, similarity);
      if best.Some? && hits as real / |line| as real >= similarity {
        id := Join(best.value, line);
        return id, false;
      }
      if |live| >= maxTemplates {
        Overflow(line);
        return otherID, true;
      }
      var dup := IsTaken(given);
      if given == 0 || dup || given == otherID {
        Refuse(line);
        return otherID, true;
      }
      NotAllHit(templates, groups, leaf, line, best, hits, similarity);
      Add(Template(given, line, 0, 1, leaf, None));
      MatchesItself(line);
      assert templates[|templates| - 1] == Template(given, line, 0, 1, leaf, None);
      return given, false;
    }

    /** The line is absorbed by the overflow. */
    method Overflow(line: seq<Token>)
      requires Valid()
      modifies `overflow, `lines, `plain
      ensures Valid() && lines == old(lines) + 1 && plain == (old(plain) && WILDCARD !in line)
      ensures overflow == old(overflow) + 1
    {
      hide Core, Tidy, Counted;
      overflow, lines, plain := overflow + 1, lines + 1, plain && WILDCARD !in line;
    }

    /** The registrar gave no identity that can be used. */
    method Refuse(line: seq<Token>)
      requires Valid()
      modifies `overflow, `lines, `plain, `failures
      ensures Valid() && lines == old(lines) + 1 && plain == (old(plain) && WILDCARD !in line)
      ensures overflow == old(overflow) + 1
    {
      hide Core, Tidy, Counted;
      failures := failures + 1;
      Overflow(line);
    }

    method Place(line: seq<Token>) returns (leaf: Node)
      requires Valid()
      modifies `tree
      ensures Valid() && Grown(old(tree), tree, maxChildren)
      ensures Route(tree, line, Steps(depth, line), maxChildren) == Some(leaf.path) && leaf.length == |line|
    {
      hide Core, Tidy, Counted, Grown, Route;
      ghost var was := tree;
      leaf := Descend(line);
      TidyGrows(templates, live, groups, was, tree, depth, maxChildren);
    }

    method FindBest(leaf: Node, line: seq<Token>) returns (best: Option<nat>, hits: nat)
      requires Valid()
      ensures similarity <= 1.0
      ensures best.None? ==> forall s :: s < |templates| && leaf in groups && s in groups[leaf] ==> |templates[s].tokens| != |line|
      ensures best.Some? ==> best.value < |templates| && |templates[best.value].tokens| == |line|
      ensures best.Some? ==> hits == Hits(templates[best.value].tokens, line, |line|)
      ensures best.Some? ==> forall s :: s < |templates| && leaf in groups && s in groups[leaf] && |templates[s].tokens| == |line| ==>
        Hits(templates[s].tokens, line, |line|) <= hits
      ensures best.Some? ==> leaf in groups && best.value in groups[leaf]
    {
      hide AliasesOk, LiveOk, GroupsOk, IdsOk, TextOk, Tidy, Counted, Hits;
      best, hits := BestMatch(leaf, line);
    }

    /** Folds a line into the template a match leads to. */
    method Join(found: nat, line: seq<Token>) returns (id: nat)
      requires Valid() && found < |templates| && |templates[found].tokens| == |line|
      modifies `templates, `live, `text, `alias, `converged, `lines, `plain
      ensures Valid() && lines == old(lines) + 1 && plain == (old(plain) && WILDCARD !in line)
      ensures Evolved(old(templates), templates) && |templates| == |old(templates)|
      ensures exists s :: 0 <= s < |templates| && templates[s].id == id && Matches(templates[s].tokens, line)
    {
      hide Core, Tidy, Counted, Evolved, Matches;
      CoreLive(templates, live, groups, otherID, text, alias);
      plain := plain && WILDCARD !in line;
      var s := ResolveAlias(found);
      var r := Absorb(s, line);
      id := templates[r].id;
    }

    method IsTaken(id: nat) returns (taken: bool)
      requires Valid()
      ensures taken <==> exists s :: s in live && s < |templates| && templates[s].id == id
    {
      hide AliasesOk, LiveOk, GroupsOk, IdsOk, TextOk, Tidy, Counted;
      taken := Taken(id);
    }

    /** A live template has the ID. */
    method Taken(id: nat) returns (taken: bool)
      requires LiveOk(templates, live)
      ensures taken <==> exists s :: s in live && s < |templates| && templates[s].id == id
    {
      var i := 0;
      while i < |templates|
        invariant i <= |templates|
        invariant forall s :: s in live && s < i ==> templates[s].id != id
      {
        if i in live && templates[i].id == id { return true; }
        i := i + 1;
      }
      taken := false;
    }

    method Add(t: Template)
      requires Valid() && |live| < maxTemplates
      requires t.aliasOf.None? && t.leaf.length == |t.tokens| && t.id != 0 && t.id != otherID && t.count == 1
      requires forall s :: 0 <= s < |templates| ==> templates[s].id != t.id
      requires Route(tree, t.tokens, Steps(depth, t.tokens), maxChildren) == Some(t.leaf.path)
      requires forall s :: s < |templates| && t.leaf in groups && s in groups[t.leaf] && |templates[s].tokens| == |t.tokens| ==>
        Hits(templates[s].tokens, t.tokens, |t.tokens|) < |t.tokens|
      modifies `templates, `live, `groups, `text, `lines, `plain
      ensures Valid() && lines == old(lines) + 1 && plain == (old(plain) && WILDCARD !in t.tokens)
      ensures templates == old(templates) + [t] && Evolved(old(templates), templates)
    {
      hide CoreOf, Evolved, Tidy, Counted, Route, Grafted, Hits;
      AddGood(Current(), tree, depth, maxChildren, t);
      var result := Grafted(Current(), t);
      templates, live, groups, text := result.ts, result.live, result.groups, result.text;
      lines, plain := lines + 1, plain && WILDCARD !in t.tokens;
    }
  }

  // ---------------------------------------------------------------------------------------

  lemma MoreLive(live: set<nat>, s: nat)
    ensures |live + {s}| <= |live| + 1
  {
    assert s in live ==> live + {s} == live;
  }

  /** Another live template with the same pattern. */
  method FindTwin(ts: seq<Template>, live: set<nat>, s: nat) returns (twin: Option<nat>)
    requires s < |ts|
    ensures twin.Some? ==> twin.value in live && twin.value != s && twin.value < |ts| && ts[twin.value].tokens == ts[s].tokens
    ensures twin.None? ==> forall t :: t in live && t != s && t < |ts| ==> ts[t].tokens != ts[s].tokens
  {
    var i := 0;
    while i < |ts|
      invariant i <= |ts|
      invariant forall t :: t in live && t != s && t < i ==> ts[t].tokens != ts[s].tokens
    {
      if i in live && i != s && ts[i].tokens == ts[s].tokens { return Some(i); }
      i := i + 1;
    }
    twin := None;
  }

  lemma WidenedIs(m: State, s: nat, line: seq<Token>)
    requires s < |m.ts| && |m.ts[s].tokens| == |line|
    ensures var w := Widened(m, s, line);
      |w.ts| == |m.ts| && w.live == m.live && w.groups == m.groups && w.otherID == m.otherID
  {
  }

  /** Widening a template, and retiring it or its twin if it has come to equal one, keeps the
      state sound, and the template left matches the line. */
  lemma WidenGood(m: State, tree: Tree, depth: nat, maxChildren: nat, s: nat, line: seq<Token>, twin: Option<nat>)
    requires CoreOf(m) && s < |m.ts| && |m.ts[s].tokens| == |line| && !Matches(m.ts[s].tokens, line)
    requires
      var us := Widened(m, s, line).ts;
      && (twin.Some? ==> twin.value in m.live && twin.value != s && twin.value < |us| && us[twin.value].tokens == us[s].tokens)
      && (twin.None? ==> forall t :: t in m.live && t != s && t < |us| ==> us[t].tokens != us[s].tokens)
    ensures
      var w := Widened(m, s, line);
      var a := if twin.Some? && twin.value < s then twin.value else s;
      var n := if twin.None? then w else Joined(w, a, if twin.value < s then s else twin.value);
      && CoreOf(n) && Evolved(m.ts, n.ts) && |n.ts| == |m.ts| && Counted(n.ts, |n.ts|) == Counted(m.ts, |m.ts|)
      && n.groups == m.groups && n.otherID == m.otherID && |n.live| <= |m.live|
      && Matches(n.ts[a].tokens, line)
      && (Tidy(m.ts, m.live, m.groups, tree, depth, maxChildren) ==> Tidy(n.ts, n.live, n.groups, tree, depth, maxChildren))
  {
    hide AliasesOk, LiveOk, GroupsOk, IdsOk, TextOk, Evolved, Tidy, Counted, Converged, Forwarded, Wider, Matches;
    WiderCore(m.ts, m.live, m.groups, m.otherID, m.text, m.alias, s, line);
    GeneralizedIsWider(m.ts[s].tokens, line);
    WiderTidy(m.ts, m.live, m.groups, tree, depth, maxChildren, s, line);
    var w := Widened(m, s, line);
    CoreLive(w.ts, w.live, w.groups, w.otherID, w.text, w.alias);
    if twin.Some? {
      var a, b := if twin.value < s then twin.value else s, if twin.value < s then s else twin.value;
      ConvergedCore(w.ts, w.live, w.groups, w.otherID, w.text, w.alias, a, b);
      ConvergedSame(w.ts, a, b);
      EvolvedTwice(m.ts, w.ts, Converged(w.ts, a, b));
      SubsetSize(w.live - {b}, w.live);
    }
  }

  lemma ConvergedSame(ts: seq<Template>, survivor: nat, retired: nat)
    requires survivor < retired < |ts|
    ensures |Converged(ts, survivor, retired)| == |ts| && Converged(ts, survivor, retired)[survivor].tokens == ts[survivor].tokens
  {
  }

  lemma AddGood(m: State, tree: Tree, depth: nat, maxChildren: nat, t: Template)
    requires CoreOf(m) && t.aliasOf.None? && t.leaf.length == |t.tokens| && t.id != 0 && t.id != m.otherID && t.count == 1
    requires forall s :: 0 <= s < |m.ts| ==> m.ts[s].id != t.id
    requires Route(tree, t.tokens, Steps(depth, t.tokens), maxChildren) == Some(t.leaf.path)
    requires forall s :: s < |m.ts| && t.leaf in m.groups && s in m.groups[t.leaf] && |m.ts[s].tokens| == |t.tokens| ==>
      Hits(m.ts[s].tokens, t.tokens, |t.tokens|) < |t.tokens|
    ensures
      var n := Grafted(m, t);
      && CoreOf(n) && n.ts == m.ts + [t] && Evolved(m.ts, n.ts) && Counted(n.ts, |n.ts|) == Counted(m.ts, |m.ts|) + 1
      && n.otherID == m.otherID && n.alias == m.alias && |n.live| <= |m.live| + 1
      && (Tidy(m.ts, m.live, m.groups, tree, depth, maxChildren) && WILDCARD !in t.tokens ==>
            Tidy(n.ts, n.live, n.groups, tree, depth, maxChildren))
  {
    hide AliasesOk, LiveOk, GroupsOk, IdsOk, TextOk, Evolved, Tidy, Counted, Route, Extended, Hits;
    MoreLive(m.live, |m.ts|);
    AddCore(m.ts, m.live, m.groups, m.otherID, m.text, m.alias, t);
    if Tidy(m.ts, m.live, m.groups, tree, depth, maxChildren) && WILDCARD !in t.tokens {
      AddTidy(m.ts, m.live, m.groups, tree, depth, maxChildren, t);
    }
  }

  lemma GrownSelf(tree: Tree, maxChildren: nat)
    ensures Grown(tree, tree, maxChildren)
  {
  }

  /** The child a token is sent to, made if need be. */
  function NextChild(kids: set<Token>, token: Token, maxChildren: nat): Token {
    if token in kids then token
    else if token == WILDCARD || |kids| >= maxChildren then WILDCARD
    else token
  }

  lemma NextChildGrows(tree: Tree, at: Node, token: Token, maxChildren: nat)
    ensures
      var kids := Kids(tree, at);
      var next := NextChild(kids, token, maxChildren);
      var later := tree[at := kids + {next}];
      Grown(tree, later, maxChildren) && Child(Kids(later, at), token, maxChildren) == Some(next)
  {
    var kids := Kids(tree, at);
    var next := NextChild(kids, token, maxChildren);
    SubsetSize(kids, kids + {next});
  }

  lemma CoreLive(ts: seq<Template>, live: set<nat>, groups: map<Node, seq<nat>>, otherID: nat,
                 text: map<nat, seq<Token>>, alias: map<nat, nat>)
    requires Core(ts, live, groups, otherID, text, alias)
    ensures AliasesOk(ts) && LiveOk(ts, live) && GroupsOk(ts, groups)
    ensures forall s :: s in live && s < |ts| ==> ts[s].id in text
    ensures |ts| !in live
  {
  }

  lemma TalliedTokens(ts: seq<Template>, s: nat)
    requires s < |ts|
    ensures ts[s := Tallied(ts[s], 1)][s].tokens == ts[s].tokens
  {
  }

  lemma WiderTidy(ts: seq<Template>, live: set<nat>, groups: map<Node, seq<nat>>, tree: Tree, depth: nat,
                  maxChildren: nat,
                  s: nat, line: seq<Token>)
    requires s < |ts| && |ts[s].tokens| == |line| && !Matches(ts[s].tokens, line)
    ensures Tidy(ts, live, groups, tree, depth, maxChildren) ==>
      var us := ts[s := Wider(ts[s], line)];
      && ((forall t :: t in live && t != s && t < |us| ==> us[t].tokens != us[s].tokens)
          ==> Tidy(us, live, groups, tree, depth, maxChildren))
      && (forall t :: t in live && t < s && us[t].tokens == us[s].tokens ==>
            Tidy(Converged(us, t, s), live - {s}, groups, tree, depth, maxChildren))
      && (forall t :: t in live && s < t < |us| && us[t].tokens == us[s].tokens ==>
            Tidy(Converged(us, s, t), live - {t}, groups, tree, depth, maxChildren))
  {
    hide Converged, Apart, Routed, Matches, Wider;
    if Tidy(ts, live, groups, tree, depth, maxChildren) {
      var us := ts[s := Wider(ts[s], line)];
      WiderApart(ts, live, s, line);
      WiderKeepsRouted(ts, groups, tree, depth, maxChildren, s, line);
      forall t | t in live && t < s && us[t].tokens == us[s].tokens
        ensures Tidy(Converged(us, t, s), live - {s}, groups, tree, depth, maxChildren)
      {
        ConvergedKeepsRouted(us, groups, tree, depth, maxChildren, t, s);
      }
      forall t | t in live && s < t < |us| && us[t].tokens == us[s].tokens
        ensures Tidy(Converged(us, s, t), live - {t}, groups, tree, depth, maxChildren)
      {
        ConvergedKeepsRouted(us, groups, tree, depth, maxChildren, s, t);
      }
    }
  }

  lemma TidyGrows(ts: seq<Template>, live: set<nat>, groups: map<Node, seq<nat>>, tree: Tree, later: Tree,
                  depth: nat, maxChildren: nat)
    requires Grown(tree, later, maxChildren)
    ensures Tidy(ts, live, groups, tree, depth, maxChildren) ==> Tidy(ts, live, groups, later, depth, maxChildren)
  {
    hide Routed, Grown, Apart;
    if Tidy(ts, live, groups, tree, depth, maxChildren) { RoutedGrows(ts, groups, tree, later, depth, maxChildren); }
  }

  lemma RatioOrder(a: nat, b: nat, n: nat)
    requires a <= b && n > 0
    ensures a as real / n as real <= b as real / n as real
  {
  }

  /** The best match decides whether any template is similar enough. */
  lemma BestDecides(ts: seq<Template>, groups: map<Node, seq<nat>>, leaf: Node, line: seq<Token>, best: Option<nat>,
                    hits: nat, similarity: real)
    requires line != []
    requires best.None? ==> forall s :: s < |ts| && leaf in groups && s in groups[leaf] ==> |ts[s].tokens| != |line|
    requires best.Some? ==> best.value < |ts| && |ts[best.value].tokens| == |line| && leaf in groups && best.value in groups[leaf]
    requires best.Some? ==> hits == Hits(ts[best.value].tokens, line, |line|)
    requires best.Some? ==> forall s :: s < |ts| && leaf in groups && s in groups[leaf] && |ts[s].tokens| == |line| ==>
               Hits(ts[s].tokens, line, |line|) <= hits
    ensures Similar(ts, groups, leaf, line, similarity) <==> best.Some? && hits as real / |line| as real >= similarity
  {
    hide Hits;
    if best.Some? {
      assert hits as real / |line| as real >= similarity ==> SimilarTo(ts[best.value], line, similarity);
      forall s | s < |ts| && s in groups[leaf] && SimilarTo(ts[s], line, similarity)
        ensures hits as real / |line| as real >= similarity
      {
        RatioOrder(Hits(ts[s].tokens, line, |line|), hits, |line|);
      }
    }
  }

  /** A line that no template is similar enough to is fitted everywhere by none. */
  lemma NotAllHit(ts: seq<Template>, groups: map<Node, seq<nat>>, leaf: Node, line: seq<Token>, best: Option<nat>,
                  hits: nat, similarity: real)
    requires line != [] && similarity <= 1.0
    requires best.None? ==> forall s :: s < |ts| && leaf in groups && s in groups[leaf] ==> |ts[s].tokens| != |line|
    requires best.Some? ==> hits as real / |line| as real < similarity
    requires best.Some? ==> forall s :: s < |ts| && leaf in groups && s in groups[leaf] && |ts[s].tokens| == |line| ==>
               Hits(ts[s].tokens, line, |line|) <= hits
    ensures forall s :: s < |ts| && leaf in groups && s in groups[leaf] && |ts[s].tokens| == |line| ==>
              Hits(ts[s].tokens, line, |line|) < |line|
  {
    hide Hits;
    if best.Some? && hits >= |line| { RatioAtLeastOne(hits, |line|); }
  }

  lemma RatioAtLeastOne(a: nat, b: nat)
    requires 0 < b <= a
    ensures a as real / b as real >= 1.0
  {
  }

  lemma MatchesItself(line: seq<Token>)
    ensures Matches(line, line)
  {
  }

  /** Every ID ever issued still resolves in the presentation index, within one hop. */
  lemma IssuedIDsResolve(p: Partition, s: nat)
    requires p.Valid() && s < |p.templates|
    ensures p.templates[s].id in p.text || (p.templates[s].id in p.alias && p.alias[p.templates[s].id] in p.text)
    ensures s in p.live ==> p.templates[s].id in p.text && p.text[p.templates[s].id] == p.templates[s].tokens
  {
    hide AliasesOk, GroupsOk, IdsOk, Tidy;
  }

  /** As long as no line spelled a wildcard out, live templates have distinct patterns. */
  lemma LivePatternsDiffer(p: Partition, a: nat, b: nat)
    requires p.Valid() && p.plain && a in p.live && b in p.live && a != b
    ensures p.templates[a].tokens != p.templates[b].tokens
  {
    hide AliasesOk, GroupsOk, IdsOk, TextOk, Routed;
  }
}
