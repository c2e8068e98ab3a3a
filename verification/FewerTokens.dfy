/** Shortening the list of advertisement tokens never makes an evaluation match a window it would not
    have matched with the longer list. */
module FewerTokens {
  import opened Model
  import opened Ordering
  import opened Search
  import opened Tokens
  import opened Signals
  import opened Evaluate
  import opened Evidence

  predicate Sublist(few: seq<string>, many: seq<string>) { forall t | t in few :: t in many }

  /** The rules with some tokens dropped. */
  function Dropped(rules: Rules, few: seq<string>): Rules { rules.(aggressiveAdTokens := few) }

  lemma LoweredSublist(few: seq<string>, many: seq<string>, lower: string -> string, low: string)
    requires Sublist(few, many)
    ensures ContainsAnyToken(Lowered(few, lower), low) ==> ContainsAnyToken(Lowered(many, lower), low)
  {
    if ContainsAnyToken(Lowered(few, lower), low) {
      var t :| t in Lowered(few, lower) && Matches(t, low);
      var i :| 0 <= i < |few| && Lowered(few, lower)[i] == t;
      assert few[i] in few;
      var j :| 0 <= j < |many| && many[j] == few[i];
      assert Lowered(many, lower)[j] == t;
    }
  }

  lemma {:induction false} SubtreeMonotone(g: WindowGraph, test: WindowNode -> bool, wider: WindowNode -> bool, h: Hwnd, depth: int)
    requires forall n :: test(n) ==> wider(n)
    ensures SubtreeAny(g, test, h, depth) ==> SubtreeAny(g, wider, h, depth)
    decreases depth + 1
  {
    if depth >= 0 {
      forall c | c in g.ChildrenOf(h) ensures SubtreeAny(g, test, c, depth - 1) ==> SubtreeAny(g, wider, c, depth - 1) {
        SubtreeMonotone(g, test, wider, c, depth - 1);
      }
    }
  }

  lemma TokensMonotone(g: WindowGraph, rules: Rules, few: seq<string>, h: Hwnd)
    requires Sublist(few, rules.aggressiveAdTokens)
    ensures SubtreeContainsAdToken(g, Dropped(rules, few), h) ==> SubtreeContainsAdToken(g, rules, h)
  {
    var less, more := Lowered(few, rules.lower), Lowered(rules.aggressiveAdTokens, rules.lower);
    var test := (n: WindowNode) => ContainsAnyToken(less, Dropped(rules, few).lower(n.Text()));
    var wider := (n: WindowNode) => ContainsAnyToken(more, rules.lower(n.Text()));
    forall n: WindowNode ensures test(n) ==> wider(n) {
      var low := rules.lower(n.Text());
      assert Dropped(rules, few).lower(n.Text()) == low;
      LoweredSublist(few, rules.aggressiveAdTokens, rules.lower, low);
    }
    SubtreeMonotone(g, test, wider, h, SEARCH_DEPTH);
  }

  lemma LegacyUnmoved(g: WindowGraph, rules: Rules, few: seq<string>, h: Hwnd)
    ensures LegacySignatureKind(g, Dropped(rules, few), h) == LegacySignatureKind(g, rules, h)
  {
    var other := Dropped(rules, few);
    forall t ensures HasWindowTextContains(g, other, h, t) <==> HasWindowTextContains(g, rules, h, t) {
      var needle := rules.lower(t);
      var a := (n: WindowNode) => n.Text() != "" && Contains(other.lower(n.Text()), needle);
      var b := (n: WindowNode) => n.Text() != "" && Contains(rules.lower(n.Text()), needle);
      SubtreeMonotone(g, a, b, h, SEARCH_DEPTH);
      SubtreeMonotone(g, b, a, h, SEARCH_DEPTH);
    }
  }

  lemma {:induction false} SameFilter(hs: seq<int>, p: int -> bool, q: int -> bool)
    requires forall h :: p(h) == q(h)
    ensures Filtered(hs, p) == Filtered(hs, q)
  {
    if hs != [] {
      SameFilter(hs[1..], p, q);
    }
  }

  /** Who is looked at does not depend on the tokens. */
  lemma SameWindows(g: WindowGraph, rules: Rules, few: seq<string>)
    ensures ConfirmedMains(g, Dropped(rules, few)) == ConfirmedMains(g, rules)
    ensures forall mains :: Candidates(g, Dropped(rules, few), mains) == Candidates(g, rules, mains)
  {
    var other := Dropped(rules, few);
    SameFilter(TopLevel(g), h => IsConfirmedMain(g, other, h), h => IsConfirmedMain(g, rules, h));
    forall mains ensures Candidates(g, other, mains) == Candidates(g, rules, mains) {
      forall h ensures IsCandidate(g, other, mains, h) == IsCandidate(g, rules, mains, h) {
        LegacyUnmoved(g, rules, few, h);
      }
      SameFilter(TopLevel(g), h => IsCandidate(g, other, mains, h), h => IsCandidate(g, rules, mains, h));
    }
  }

  lemma {:induction false} SamePopups(g: WindowGraph, rules: Rules, few: seq<string>, hits: seq<Hit>)
    ensures MatchingHits(g, Dropped(rules, few), hits) == MatchingHits(g, rules, hits)
  {
    if hits != [] {
      SamePopups(g, rules, few, hits[1..]);
    }
  }

  lemma ChildStillShows(g: WindowGraph, settings: Settings, rules: Rules, few: seq<string>, m: Hwnd, h: Hwnd, action: ActionKind)
    requires Sublist(few, rules.aggressiveAdTokens)
    ensures MainChildShows(g, settings, Dropped(rules, few), m, h, action) ==> MainChildShows(g, settings, rules, m, h, action)
  {
    var other := Dropped(rules, few);
    if MainChildShows(g, settings, other, m, h, action) {
      TokensMonotone(g, rules, few, h);
      if action.Close? && MainShowsAd(g, settings, other, m) {
        var kids := g.ChildrenOf(m);
        var i :| 0 <= i < |kids| && ShowsAd(g, settings, other, m, kids[i]);
        TokensMonotone(g, rules, few, kids[i]);
        LegacyUnmoved(g, rules, few, kids[i]);
        assert ShowsAd(g, settings, rules, m, g.ChildrenOf(m)[i]);
      }
    }
  }

  lemma HostStillDecides(g: WindowGraph, rules: Rules, few: seq<string>, mains: set<Hwnd>, host: Hwnd, x: WindowIdentity, action: ActionKind)
    ensures HostDecides(g, Dropped(rules, few), mains, host, x, action) ==> HostDecides(g, rules, mains, host, x, action)
  {
    var other := Dropped(rules, few);
    if HostDecides(g, other, mains, host, x, action) {
      SamePopups(g, rules, few, Descendants(g, host, rules.popupSearchDepth));
      var hits := PopupMatches(g, rules, host);
      var i :| 0 <= i < |hits| && HitDecides(g, other, g.nodes[host], hits[i], x, action);
      assert HitDecides(g, rules, g.nodes[host], hits[i], x, action);
    }
  }

  /** Dropping tokens never creates a match: whatever window one evaluation matches for an action with
      fewer tokens, it matches for the same action with all of them. */
  lemma DroppingTokensCreatesNoMatch(g: WindowGraph, settings: Settings, rules: Rules, few: seq<string>, before: States, states: States,
                                     h: Hwnd, action: ActionKind)
    requires g.WellKeyed() && h in g.nodes && Sublist(few, rules.aggressiveAdTokens)
    requires Recorded(Apply(g, settings, Dropped(rules, few), before).store.verdicts, g.nodes[h].Identity(), action)
    ensures Recorded(Apply(g, settings, rules, states).store.verdicts, g.nodes[h].Identity(), action)
  {
    var other, mains := Dropped(rules, few), ConfirmedMains(g, rules);
    MatchedExactlyOnEvidence(g, settings, other, before, h, action);
    MatchedExactlyOnEvidence(g, settings, rules, states, h, action);
    SameWindows(g, rules, few);
    LegacyUnmoved(g, rules, few, h);
    if exists i :: 0 <= i < |mains| && MainChildShows(g, settings, other, mains[i], h, action) {
      var i :| 0 <= i < |mains| && MainChildShows(g, settings, other, mains[i], h, action);
      ChildStillShows(g, settings, rules, few, mains[i], h, action);
    } else if SomeHostDecides(g, other, Members(mains), TopLevel(g), g.nodes[h].Identity(), action) {
      var i :| 0 <= i < |TopLevel(g)| && HostDecides(g, other, Members(mains), TopLevel(g)[i], g.nodes[h].Identity(), action);
      HostStillDecides(g, rules, few, Members(mains), TopLevel(g)[i], g.nodes[h].Identity(), action);
    }
  }
}
