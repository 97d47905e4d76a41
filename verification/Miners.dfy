/**
 One partition of the log template miner: the prefix tree, its templates and their aliases,
 changed in place line by line.

 Timestamps, samples and the staging of rows for the store are not part of this model. Templates
 are kept in creation order, so a template's index is its sequence number. The registrar is a
 parameter: the ID it would give, or zero; it never gives out an ID it gave before, except
 possibly one that is still live.
 */
module Miners {
  import opened Mining
  import opened Options

  // ---------------------------------------------------------------------------------------
  // Invariants.

  /** The live templates are the ones that forward to nothing. */
  ghost predicate LiveOk(ts: seq<Template>, live: set<nat>) {
    && (forall s :: s in live ==> s < |ts|)
    && (forall s :: 0 <= s < |ts| ==> (s in live <==> ts[s].aliasOf.None?))
  }

  ghost predicate GroupsOk(ts: seq<Template>, groups: map<Node, seq<nat>>) {
    forall at, i :: at in groups && 0 <= i < |groups[at]| ==> groups[at][i] < |ts| && |ts[groups[at][i]].tokens| == at.length
  }

  ghost predicate IdsOk(ts: seq<Template>, otherID: nat) {
    && (forall s :: 0 <= s < |ts| ==> ts[s].id != 0 && ts[s].id != otherID)
    && (forall s, r :: 0 <= s < r < |ts| ==> ts[s].id != ts[r].id)
  }

  /** A live template's text is its pattern; a retired one's is its own last or its survivor's. */
  ghost predicate TextOk(ts: seq<Template>, live: set<nat>, text: map<nat, seq<Token>>, alias: map<nat, nat>) {
    && (forall s :: s in live && s < |ts| ==> ts[s].id in text && text[ts[s].id] == ts[s].tokens)
    && (forall s :: 0 <= s < |ts| ==> ts[s].id in text || (ts[s].id in alias && alias[ts[s].id] in text))
  }

  /** No two live templates have the same pattern. */
  ghost predicate Apart(ts: seq<Template>, live: set<nat>) {
    forall a, b :: a in live && b in live && a < b < |ts| ==> ts[a].tokens != ts[b].tokens
  }

  function Steps(depth: nat, line: seq<Token>): nat { if depth > |line| then |line| else depth }

  /** A pattern without wildcards is found where its own tokens lead. */
  ghost predicate Routed(ts: seq<Template>, groups: map<Node, seq<nat>>, tree: Tree, depth: nat, maxChildren: nat) {
    forall s :: 0 <= s < |ts| && WILDCARD !in ts[s].tokens ==> RoutedOne(ts, s, groups, tree, depth, maxChildren)
  }

  ghost predicate RoutedOne(ts: seq<Template>, s: nat, groups: map<Node, seq<nat>>, tree: Tree, depth: nat,
                            maxChildren: nat)
    requires s < |ts|
  {
    && Route(tree, ts[s].tokens, Steps(depth, ts[s].tokens), maxChildren) == Some(ts[s].leaf.path)
    && ts[s].leaf.length == |ts[s].tokens| && ts[s].leaf in groups && s in groups[ts[s].leaf]
  }

  // ---------------------------------------------------------------------------------------
  // What changes a template.

  function Wider(t: Template, line: seq<Token>): Template
    requires |t.tokens| == |line|
  {
    Template(t.id, Generalized(t.tokens, line), t.version + 1, t.count, t.leaf, t.aliasOf)
  }

  function Tallied(t: Template, n: nat): Template { Template(t.id, t.tokens, t.version, t.count + n, t.leaf, t.aliasOf) }

  function RetiredInto(t: Template, survivor: nat): Template {
    Template(t.id, t.tokens, t.version + 1, 0, t.leaf, Some(survivor))
  }

  /** The younger of two templates with one pattern hands its lines to the older and forwards to
      it. */
  function Converged(ts: seq<Template>, survivor: nat, retired: nat): seq<Template>
    requires survivor < |ts| && retired < |ts|
  {
    ts[survivor := Tallied(ts[survivor], ts[retired].count)][retired := RetiredInto(ts[retired], survivor)]
  }

  /** Identities stay, patterns only widen, and a pattern that changed has a higher version. */
  ghost predicate Evolved(ts: seq<Template>, later: seq<Template>) {
    && |ts| <= |later|
    && forall s :: 0 <= s < |ts| ==>
      && later[s].id == ts[s].id && later[s].leaf == ts[s].leaf
      && Widens(ts[s].tokens, later[s].tokens)
      && later[s].version >= ts[s].version
      && (later[s].tokens != ts[s].tokens ==> later[s].version > ts[s].version)
      && (ts[s].aliasOf.Some? ==> later[s].aliasOf.Some?)
  }

  lemma EvolvedTwice(a: seq<Template>, b: seq<Template>, c: seq<Template>)
    requires Evolved(a, b) && Evolved(b, c)
    ensures Evolved(a, c)
  {
  }

  lemma EvolvedSelf(ts: seq<Template>)
    ensures Evolved(ts, ts)
  {
  }

  lemma WiderEvolves(ts: seq<Template>, s: nat, line: seq<Token>)
    requires s < |ts| && |ts[s].tokens| == |line|
    ensures Evolved(ts, ts[s := Wider(ts[s], line)])
  {
    GeneralizedIsWider(ts[s].tokens, line);
  }

  // ---------------------------------------------------------------------------------------
  // Generalizing a template.

  lemma WiderKeeps(ts: seq<Template>, live: set<nat>, groups: map<Node, seq<nat>>, otherID: nat, s: nat,
                   line: seq<Token>)
    requires s < |ts| && |ts[s].tokens| == |line|
    requires AliasesOk(ts) && LiveOk(ts, live) && GroupsOk(ts, groups) && IdsOk(ts, otherID)
    ensures var us := ts[s := Wider(ts[s], line)];
            AliasesOk(us) && LiveOk(us, live) && GroupsOk(us, groups) && IdsOk(us, otherID)
    ensures Counted(ts[s := Wider(ts[s], line)], |ts|) == Counted(ts, |ts|)
  {
    CountedChange(ts, s, Wider(ts[s], line), |ts|);
  }

  lemma WiderKeepsText(ts: seq<Template>, live: set<nat>, text: map<nat, seq<Token>>, alias: map<nat, nat>,
                       otherID: nat, s: nat, line: seq<Token>)
    requires s < |ts| && |ts[s].tokens| == |line| && IdsOk(ts, otherID) && TextOk(ts, live, text, alias)
    ensures var us := ts[s := Wider(ts[s], line)]; TextOk(us, live, text[us[s].id := us[s].tokens], alias)
  {
  }

  lemma WiderKeepsRouted(ts: seq<Template>, groups: map<Node, seq<nat>>, tree: Tree, depth: nat, maxChildren: nat,
                         s: nat, line: seq<Token>)
    requires s < |ts| && |ts[s].tokens| == |line| && Routed(ts, groups, tree, depth, maxChildren)
    requires !Matches(ts[s].tokens, line)
    ensures Routed(ts[s := Wider(ts[s], line)], groups, tree, depth, maxChildren)
  {
    var us := ts[s := Wider(ts[s], line)];
    var i :| 0 <= i < |line| && !Fits(ts[s].tokens[i], line[i]);
    assert us[s].tokens[i] == WILDCARD;
    forall r | 0 <= r < |us| && WILDCARD !in us[r].tokens ensures RoutedOne(us, r, groups, tree, depth, maxChildren) {
      assert RoutedOne(ts, r, groups, tree, depth, maxChildren);
    }
  }

  // ---------------------------------------------------------------------------------------
  // Converging two templates.

  /** What converging does to each template, by position. */
  lemma ConvergedAt(ts: seq<Template>, survivor: nat, retired: nat)
    requires survivor < retired < |ts|
    ensures var us := Converged(ts, survivor, retired);
      && |us| == |ts|
      && us[survivor] == Tallied(ts[survivor], ts[retired].count) && us[retired] == RetiredInto(ts[retired], survivor)
      && forall s :: 0 <= s < |ts| && s != survivor && s != retired ==> us[s] == ts[s]
  {
  }

  lemma ConvergedKeeps(ts: seq<Template>, live: set<nat>, groups: map<Node, seq<nat>>, otherID: nat, survivor: nat,
                       retired: nat)
    requires survivor < retired < |ts| && ts[survivor].tokens == ts[retired].tokens
    requires AliasesOk(ts) && LiveOk(ts, live) && GroupsOk(ts, groups) && IdsOk(ts, otherID)
    ensures var us := Converged(ts, survivor, retired);
            AliasesOk(us) && LiveOk(us, live - {retired}) && GroupsOk(us, groups) && IdsOk(us, otherID)
  {
    hide Converged;
    ConvergedAt(ts, survivor, retired);
    var us := Converged(ts, survivor, retired);
    forall s | 0 <= s < |us| ensures us[s].id == ts[s].id && us[s].tokens == ts[s].tokens {
    }
  }

  lemma ConvergedEvolves(ts: seq<Template>, survivor: nat, retired: nat)
    requires survivor < retired < |ts|
    ensures Evolved(ts, Converged(ts, survivor, retired))
  {
    hide Converged;
    ConvergedAt(ts, survivor, retired);
  }

  lemma ConvergedCounts(ts: seq<Template>, survivor: nat, retired: nat)
    requires survivor < retired < |ts|
    ensures Counted(Converged(ts, survivor, retired), |ts|) == Counted(ts, |ts|)
  {
    hide Counted;
    var t := Tallied(ts[survivor], ts[retired].count);
    CountedChange(ts, survivor, t, |ts|);
    CountedChange(ts[survivor := t], retired, RetiredInto(ts[retired], survivor), |ts|);
  }

  /** The presentation index after an ID is retired into another: its text goes, it forwards, and
      what forwarded to it forwards on. */
  function Forwarded(alias: map<nat, nat>, from: nat, to: nat): map<nat, nat> {
    map k | k in alias.Keys + {from} :: if k == from || alias[k] == from then to else alias[k]
  }

  lemma ConvergedKeepsText(ts: seq<Template>, live: set<nat>, text: map<nat, seq<Token>>, alias: map<nat, nat>,
                           otherID: nat, survivor: nat, retired: nat)
    requires survivor < retired < |ts| && IdsOk(ts, otherID) && TextOk(ts, live, text, alias)
    requires ts[survivor].id in text
    ensures TextOk(Converged(ts, survivor, retired), live - {retired}, text - {ts[retired].id},
                   Forwarded(alias, ts[retired].id, ts[survivor].id))
  {
    hide AliasesOk;
    var us, from, to := Converged(ts, survivor, retired), ts[retired].id, ts[survivor].id;
    var after, moved := text - {from}, Forwarded(alias, from, to);
    assert to in after;
    forall s | 0 <= s < |us| ensures us[s].id in after || (us[s].id in moved && moved[us[s].id] in after) {
      assert us[s].id == ts[s].id;
      if ts[s].id in alias { assert moved[ts[s].id] == if ts[s].id == from || alias[ts[s].id] == from then to else alias[ts[s].id]; }
    }
  }

  lemma ConvergedKeepsRouted(ts: seq<Template>, groups: map<Node, seq<nat>>, tree: Tree, depth: nat,
                             maxChildren: nat, survivor: nat, retired: nat)
    requires survivor < |ts| && retired < |ts| && Routed(ts, groups, tree, depth, maxChildren)
    ensures Routed(Converged(ts, survivor, retired), groups, tree, depth, maxChildren)
  {
    var us := Converged(ts, survivor, retired);
    forall r | 0 <= r < |us| && WILDCARD !in us[r].tokens ensures RoutedOne(us, r, groups, tree, depth, maxChildren) {
      assert RoutedOne(ts, r, groups, tree, depth, maxChildren);
    }
  }

  // ---------------------------------------------------------------------------------------
  // Counting a line.

  lemma TallyKeeps(ts: seq<Template>, live: set<nat>, groups: map<Node, seq<nat>>, otherID: nat, s: nat)
    requires s < |ts|
    requires AliasesOk(ts) && LiveOk(ts, live) && GroupsOk(ts, groups) && IdsOk(ts, otherID)
    ensures var us := ts[s := Tallied(ts[s], 1)];
            AliasesOk(us) && LiveOk(us, live) && GroupsOk(us, groups) && IdsOk(us, otherID)
    ensures Counted(ts[s := Tallied(ts[s], 1)], |ts|) == Counted(ts, |ts|) + 1
    ensures Evolved(ts, ts[s := Tallied(ts[s], 1)])
  {
    CountedChange(ts, s, Tallied(ts[s], 1), |ts|);
  }

  lemma TallyKeepsRest(ts: seq<Template>, live: set<nat>, groups: map<Node, seq<nat>>, tree: Tree, depth: nat,
                       maxChildren: nat,
                       text: map<nat, seq<Token>>, alias: map<nat, nat>, s: nat)
    requires s < |ts|
    ensures TextOk(ts, live, text, alias) ==> TextOk(ts[s := Tallied(ts[s], 1)], live, text, alias)
    ensures Apart(ts, live) ==> Apart(ts[s := Tallied(ts[s], 1)], live)
    ensures Routed(ts, groups, tree, depth, maxChildren) ==> Routed(ts[s := Tallied(ts[s], 1)], groups, tree, depth, maxChildren)
  {
    var us := ts[s := Tallied(ts[s], 1)];
    if Routed(ts, groups, tree, depth, maxChildren) {
      forall r | 0 <= r < |us| && WILDCARD !in us[r].tokens ensures RoutedOne(us, r, groups, tree, depth, maxChildren) {
        assert RoutedOne(ts, r, groups, tree, depth, maxChildren);
      }
    }
  }

  // ---------------------------------------------------------------------------------------
  // A new template.

  function Extended(groups: map<Node, seq<nat>>, leaf: Node, s: nat): map<Node, seq<nat>> {
    groups[leaf := (if leaf in groups then groups[leaf] else []) + [s]]
  }

  lemma AddKeeps(ts: seq<Template>, live: set<nat>, groups: map<Node, seq<nat>>, otherID: nat, t: Template)
    requires AliasesOk(ts) && LiveOk(ts, live) && GroupsOk(ts, groups) && IdsOk(ts, otherID)
    requires t.aliasOf.None? && t.leaf.length == |t.tokens| && t.id != 0 && t.id != otherID
    requires forall s :: 0 <= s < |ts| ==> ts[s].id != t.id
    ensures AliasesOk(ts + [t]) && LiveOk(ts + [t], live + {|ts|}) && IdsOk(ts + [t], otherID)
    ensures GroupsOk(ts + [t], Extended(groups, t.leaf, |ts|))
    ensures Counted(ts + [t], |ts| + 1) == Counted(ts, |ts|) + t.count
  {
    hide AliasesOk, LiveOk, IdsOk, GroupsOk, Counted, Extended;
    AddKeepsIds(ts, live, otherID, t);
    CountedAppend(ts, t);
    AddKeepsGroups(ts, groups, t);
  }

  lemma AddKeepsIds(ts: seq<Template>, live: set<nat>, otherID: nat, t: Template)
    requires AliasesOk(ts) && LiveOk(ts, live) && IdsOk(ts, otherID)
    requires t.aliasOf.None? && t.id != 0 && t.id != otherID
    requires forall s :: 0 <= s < |ts| ==> ts[s].id != t.id
    ensures AliasesOk(ts + [t]) && LiveOk(ts + [t], live + {|ts|}) && IdsOk(ts + [t], otherID)
  {
  }

  lemma AddEvolves(ts: seq<Template>, t: Template)
    ensures Evolved(ts, ts + [t])
  {
  }

  lemma AddKeepsGroups(ts: seq<Template>, groups: map<Node, seq<nat>>, t: Template)
    requires GroupsOk(ts, groups) && t.leaf.length == |t.tokens|
    ensures GroupsOk(ts + [t], Extended(groups, t.leaf, |ts|))
  {
    var us, after := ts + [t], Extended(groups, t.leaf, |ts|);
    forall at, i | at in after && 0 <= i < |after[at]| ensures after[at][i] < |us| && |us[after[at][i]].tokens| == at.length {
      if at != t.leaf { assert after[at] == groups[at]; }
    }
  }

  lemma AddKeepsText(ts: seq<Template>, live: set<nat>, text: map<nat, seq<Token>>, alias: map<nat, nat>,
                     otherID: nat, t: Template)
    requires LiveOk(ts, live) && TextOk(ts, live, text, alias)
    requires forall s :: 0 <= s < |ts| ==> ts[s].id != t.id
    ensures TextOk(ts + [t], live + {|ts|}, text[t.id := t.tokens], alias)
  {
  }

  lemma AddKeepsRouted(ts: seq<Template>, groups: map<Node, seq<nat>>, tree: Tree, depth: nat, maxChildren: nat,
                       t: Template)
    requires Routed(ts, groups, tree, depth, maxChildren)
    requires Route(tree, t.tokens, Steps(depth, t.tokens), maxChildren) == Some(t.leaf.path) && t.leaf.length == |t.tokens|
    ensures Routed(ts + [t], Extended(groups, t.leaf, |ts|), tree, depth, maxChildren)
  {
    var us, after := ts + [t], Extended(groups, t.leaf, |ts|);
    forall r | 0 <= r < |us| && WILDCARD !in us[r].tokens ensures RoutedOne(us, r, after, tree, depth, maxChildren) {
      if r < |ts| {
        assert us[r] == ts[r];
        assert RoutedOne(ts, r, groups, tree, depth, maxChildren);
        if ts[r].leaf == t.leaf {
          var i :| 0 <= i < |groups[t.leaf]| && groups[t.leaf][i] == r;
          assert after[t.leaf][i] == r;
        }
      } else {
        assert after[t.leaf][|after[t.leaf]| - 1] == |ts|;
      }
    }
  }

  lemma RoutedGrows(ts: seq<Template>, groups: map<Node, seq<nat>>, tree: Tree, later: Tree, depth: nat,
                    maxChildren: nat)
    requires Routed(ts, groups, tree, depth, maxChildren) && Grown(tree, later, maxChildren)
    ensures Routed(ts, groups, later, depth, maxChildren)
  {
    forall r | 0 <= r < |ts| && WILDCARD !in ts[r].tokens ensures RoutedOne(ts, r, groups, later, depth, maxChildren) {
      assert RoutedOne(ts, r, groups, tree, depth, maxChildren);
      RouteIsStable(tree, later, ts[r].tokens, Steps(depth, ts[r].tokens), maxChildren);
    }
  }

  /** A live template whose pattern is the line itself would have been found in the line's leaf. */
  lemma NewIsApart(ts: seq<Template>, live: set<nat>, groups: map<Node, seq<nat>>, tree: Tree, depth: nat,
                   maxChildren: nat,
                   line: seq<Token>, leaf: Node)
    requires LiveOk(ts, live) && GroupsOk(ts, groups) && Routed(ts, groups, tree, depth, maxChildren) && WILDCARD !in line
    requires Route(tree, line, Steps(depth, line), maxChildren) == Some(leaf.path) && leaf.length == |line|
    requires forall s :: s < |ts| && leaf in groups && s in groups[leaf] && |ts[s].tokens| == |line| ==>
               Hits(ts[s].tokens, line, |line|) < |line|
    ensures forall s :: s in live && s < |ts| ==> ts[s].tokens != line
  {
    forall s | s in live && s < |ts| ensures ts[s].tokens != line {
      if ts[s].tokens == line {
        assert RoutedOne(ts, s, groups, tree, depth, maxChildren);
        assert ts[s].leaf == leaf;
        HitsAtMost(line, line, |line|);
      }
    }
  }

  // ---------------------------------------------------------------------------------------
  // The steps on everything at once.

  ghost predicate Core(ts: seq<Template>, live: set<nat>, groups: map<Node, seq<nat>>, otherID: nat,
                       text: map<nat, seq<Token>>, alias: map<nat, nat>) {
    AliasesOk(ts) && LiveOk(ts, live) && GroupsOk(ts, groups) && IdsOk(ts, otherID) && TextOk(ts, live, text, alias)
  }

  /** What holds as long as no line spelled a wildcard out. */
  ghost predicate Tidy(ts: seq<Template>, live: set<nat>, groups: map<Node, seq<nat>>, tree: Tree, depth: nat,
                       maxChildren: nat) {
    Apart(ts, live) && Routed(ts, groups, tree, depth, maxChildren)
  }

  lemma WiderCore(ts: seq<Template>, live: set<nat>, groups: map<Node, seq<nat>>, otherID: nat,
                  text: map<nat, seq<Token>>, alias: map<nat, nat>, s: nat, line: seq<Token>)
    requires Core(ts, live, groups, otherID, text, alias) && s < |ts| && |ts[s].tokens| == |line|
    ensures var us := ts[s := Wider(ts[s], line)];
      && Core(us, live, groups, otherID, text[us[s].id := us[s].tokens], alias)
      && Evolved(ts, us) && Counted(us, |ts|) == Counted(ts, |ts|)
      && us[s].tokens == Generalized(ts[s].tokens, line) && us[s].id == ts[s].id
  {
    hide AliasesOk, LiveOk, GroupsOk, IdsOk, TextOk, Evolved, Counted;
    WiderKeeps(ts, live, groups, otherID, s, line);
    WiderKeepsText(ts, live, text, alias, otherID, s, line);
    WiderEvolves(ts, s, line);
  }

  lemma ConvergedCore(ts: seq<Template>, live: set<nat>, groups: map<Node, seq<nat>>, otherID: nat,
                      text: map<nat, seq<Token>>, alias: map<nat, nat>, survivor: nat, retired: nat)
    requires Core(ts, live, groups, otherID, text, alias)
    requires survivor < retired < |ts| && ts[survivor].tokens == ts[retired].tokens && ts[survivor].id in text
    ensures var us := Converged(ts, survivor, retired);
      && Core(us, live - {retired}, groups, otherID, text - {ts[retired].id}, Forwarded(alias, ts[retired].id, ts[survivor].id))
      && Evolved(ts, us) && Counted(us, |ts|) == Counted(ts, |ts|)
  {
    hide AliasesOk, LiveOk, GroupsOk, IdsOk, TextOk, Evolved, Counted, Converged, Forwarded;
    ConvergedKeeps(ts, live, groups, otherID, survivor, retired);
    ConvergedKeepsText(ts, live, text, alias, otherID, survivor, retired);
    ConvergedEvolves(ts, survivor, retired);
    ConvergedCounts(ts, survivor, retired);
  }

  /** Widening a template and, if it came to equal a live one, converging the two keeps live
      patterns apart. */
  lemma WiderApart(ts: seq<Template>, live: set<nat>, s: nat, line: seq<Token>)
    requires Apart(ts, live) && s < |ts| && |ts[s].tokens| == |line|
    ensures var us := ts[s := Wider(ts[s], line)];
      && ((forall t :: t in live && t != s && t < |us| ==> us[t].tokens != us[s].tokens) ==> Apart(us, live))
      && (forall t :: t in live && t < s && us[t].tokens == us[s].tokens ==> Apart(Converged(us, t, s), live - {s}))
      && (forall t :: t in live && s < t < |us| && us[t].tokens == us[s].tokens ==> Apart(Converged(us, s, t), live - {t}))
  {
    var us := ts[s := Wider(ts[s], line)];
    forall t | t in live && t < s && us[t].tokens == us[s].tokens ensures Apart(Converged(us, t, s), live - {s}) {
      ConvergedApart(ts, us, live, s, t, t, s);
    }
    forall t | t in live && s < t < |us| && us[t].tokens == us[s].tokens ensures Apart(Converged(us, s, t), live - {t}) {
      ConvergedApart(ts, us, live, s, t, s, t);
    }
  }

  lemma ConvergedApart(ts: seq<Template>, us: seq<Template>, live: set<nat>, s: nat, t: nat, survivor: nat,
                       retired: nat)
    requires Apart(ts, live) && |us| == |ts| && t in live && survivor < retired < |us|
    requires (survivor == s && retired == t) || (survivor == t && retired == s)
    requires us[s].tokens == us[t].tokens && forall r :: 0 <= r < |us| && r != s ==> us[r] == ts[r]
    ensures Apart(Converged(us, survivor, retired), live - {retired})
  {
    hide Converged;
    ConvergedAt(us, survivor, retired);
    var vs := Converged(us, survivor, retired);
    forall a, b | a in live - {retired} && b in live - {retired} && a < b < |vs| ensures vs[a].tokens != vs[b].tokens {
      var x, y := if a == s then t else a, if b == s then t else b;
      assert vs[a].tokens == ts[x].tokens && vs[b].tokens == ts[y].tokens;
      if x < y { assert ts[x].tokens != ts[y].tokens; } else { assert ts[y].tokens != ts[x].tokens; }
    }
  }

  lemma TallyCore(ts: seq<Template>, live: set<nat>, groups: map<Node, seq<nat>>, otherID: nat,
                  text: map<nat, seq<Token>>, alias: map<nat, nat>, tree: Tree, depth: nat, maxChildren: nat, s: nat)
    requires Core(ts, live, groups, otherID, text, alias) && s < |ts|
    ensures var us := ts[s := Tallied(ts[s], 1)];
      && Core(us, live, groups, otherID, text, alias)
      && Evolved(ts, us) && Counted(us, |ts|) == Counted(ts, |ts|) + 1
      && (Tidy(ts, live, groups, tree, depth, maxChildren) ==> Tidy(us, live, groups, tree, depth, maxChildren))
  {
    hide AliasesOk, LiveOk, GroupsOk, IdsOk, TextOk, Evolved, Counted, Apart, Routed;
    TallyKeeps(ts, live, groups, otherID, s);
    TallyKeepsRest(ts, live, groups, tree, depth, maxChildren, text, alias, s);
  }

  lemma AddCore(ts: seq<Template>, live: set<nat>, groups: map<Node, seq<nat>>, otherID: nat,
                text: map<nat, seq<Token>>, alias: map<nat, nat>, t: Template)
    requires Core(ts, live, groups, otherID, text, alias)
    requires t.aliasOf.None? && t.leaf.length == |t.tokens| && t.id != 0 && t.id != otherID
    requires forall s :: 0 <= s < |ts| ==> ts[s].id != t.id
    ensures Core(ts + [t], live + {|ts|}, Extended(groups, t.leaf, |ts|), otherID, text[t.id := t.tokens], alias)
    ensures Evolved(ts, ts + [t]) && Counted(ts + [t], |ts| + 1) == Counted(ts, |ts|) + t.count
  {
    hide AliasesOk, LiveOk, GroupsOk, IdsOk, TextOk, Evolved, Counted, Extended;
    AddKeeps(ts, live, groups, otherID, t);
    AddKeepsText(ts, live, text, alias, otherID, t);
    AddEvolves(ts, t);
  }

  lemma AddTidy(ts: seq<Template>, live: set<nat>, groups: map<Node, seq<nat>>, tree: Tree, depth: nat,
                maxChildren: nat, t: Template)
    requires LiveOk(ts, live) && GroupsOk(ts, groups) && Tidy(ts, live, groups, tree, depth, maxChildren)
    requires WILDCARD !in t.tokens && t.leaf.length == |t.tokens|
    requires Route(tree, t.tokens, Steps(depth, t.tokens), maxChildren) == Some(t.leaf.path)
    requires forall s :: s < |ts| && t.leaf in groups && s in groups[t.leaf] && |ts[s].tokens| == |t.tokens| ==>
               Hits(ts[s].tokens, t.tokens, |t.tokens|) < |t.tokens|
    ensures Tidy(ts + [t], live + {|ts|}, Extended(groups, t.leaf, |ts|), tree, depth, maxChildren)
  {
    hide Routed, GroupsOk, Extended;
    NewIsApart(ts, live, groups, tree, depth, maxChildren, t.tokens, t.leaf);
    AddKeepsRouted(ts, groups, tree, depth, maxChildren, t);
  }
}
