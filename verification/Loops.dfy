/**
 The merge loop of a listing as a sequence of steps: which page each cursor fetches, and which
 entry each turn emits.
 */
module Loops {
  import opened Results
  import opened Listing
  import opened KeyMapping
  import opened Streams
  import opened S3Store

  /** The merge loop of a request: both cursors and the entries emitted so far. */
  datatype Loop = Loop(oc: CursorState, bc: CursorState, shown: seq<Entry>)

  /** A page that some store answered with for a token. */
  datatype Answered = Answered(token: string, page: ListPage)

  predicate Loaded(cs: CursorState) {
    cs.remaining != [] || cs.done
  }

  /** Both cursors are loaded, and these are their heads. */
  predicate AreLoaded(oc: CursorState, bc: CursorState, o: Option<Entry>, b: Option<Entry>) {
    && Loaded(oc) && Loaded(bc)
    && o == (if oc.remaining == [] then None else Some(oc.remaining[0]))
    && b == (if bc.remaining == [] then None else Some(bc.remaining[0]))
  }

  predicate AreExhausted(oc: CursorState, bc: CursorState) {
    Loaded(oc) && Loaded(bc) && oc.remaining == [] && bc.remaining == []
  }

  /** Takes a page up; behind the last page it does not matter where the cursor would resume. */
  predicate TakesPage(page: ListPage, next: CursorState) {
    && next.remaining == MergedPage(page.objects, page.commonPrefixes) && next.done == !page.truncated
    && (page.truncated ==> next.after == page.nextToken)
  }

  /** A cursor that has consumed its entries fetches a page that its store answered with. */
  predicate Fetches(answers: set<Answered>, cs: CursorState, next: CursorState) {
    !Loaded(cs) && exists a :: a in answers && a.token == cs.after && TakesPage(a.page, next)
  }

  predicate Emits(s: Loop, t: Loop) {
    && Loaded(s.oc) && Loaded(s.bc) && (s.oc.remaining != [] || s.bc.remaining != [])
    && var pick := Next(s.oc.remaining, s.bc.remaining);
       t == Loop(s.oc.(remaining := pick.overlay), s.bc.(remaining := pick.baseline), s.shown + [pick.entry])
  }

  predicate LoopStep(os: set<Answered>, bs: set<Answered>, max: nat, s: Loop, t: Loop) {
    || (Fetches(os, s.oc, t.oc) && t == s.(oc := t.oc))
    || (Fetches(bs, s.bc, t.bc) && t == s.(bc := t.bc))
    || (|s.shown| < max && Emits(s, t))
  }

  /** A stretch of the loop. */
  predicate IsPath(os: set<Answered>, bs: set<Answered>, max: nat, path: seq<Loop>) {
    path != [] && forall i :: 0 <= i < |path| - 1 ==> LoopStep(os, bs, max, path[i], path[i + 1])
  }

  /** A stretch of the loop from one place to another. */
  predicate Leads(os: set<Answered>, bs: set<Answered>, max: nat, path: seq<Loop>, s: Loop, t: Loop) {
    IsPath(os, bs, max, path) && path[0] == s && path[|path| - 1] == t
  }

  predicate IsLoop(os: set<Answered>, bs: set<Answered>, max: nat, loop: seq<Loop>) {
    IsPath(os, bs, max, loop) && loop[0].shown == []
  }

  /** The answer of a loop that has filled its page, or found both cursors exhausted. */
  predicate LoopAnswers(max: nat, end: Loop, page: ListPage) {
    && Loaded(end.oc) && (end.oc.remaining == [] ==> Loaded(end.bc))
    && (|end.shown| < max ==> Loaded(end.bc) && end.oc.remaining == [] && end.bc.remaining == [])
    && page.objects == Listing.Objects(end.shown) && page.commonPrefixes == Prefixes(end.shown)
    && (page.truncated <==> end.oc.remaining != [] || end.bc.remaining != [])
  }

  /** The loop of a whole request, and the answers that its cursors fetched. */
  datatype Done = Done(os: set<Answered>, bs: set<Answered>, loop: seq<Loop>)

  /** The loop begins at the positions given, answers with the page, and its end is what a session saves. */
  predicate Does(done: Done, max: nat, ovState: CursorState, bsState: CursorState, page: ListPage,
                 ov: CursorState, bs: CursorState)
  {
    && IsLoop(done.os, done.bs, max, done.loop)
    && done.loop[0].oc == ovState && done.loop[0].bc == bsState
    && LoopAnswers(max, done.loop[|done.loop| - 1], page)
    && (page.truncated ==> ov == done.loop[|done.loop| - 1].oc && bs == done.loop[|done.loop| - 1].bc)
  }

  lemma LoopIsDone(os: set<Answered>, bs: set<Answered>, max: nat, loop: seq<Loop>, s: Loop, t: Loop,
                   page: ListPage, ov: CursorState, bv: CursorState)
    requires Leads(os, bs, max, loop, s, t) && s.shown == [] && LoopAnswers(max, t, page)
    requires page.truncated ==> ov == t.oc && bv == t.bc
    ensures Does(Done(os, bs, loop), max, s.oc, s.bc, page, ov, bv)
  {
    hide LoopStep, LoopAnswers;
  }

  lemma DoesWithToken(done: Done, max: nat, ovState: CursorState, bsState: CursorState, page: ListPage,
                      ov: CursorState, bs: CursorState, token: string)
    requires Does(done, max, ovState, bsState, page, ov, bs)
    ensures Does(done, max, ovState, bsState, page.(nextToken := token), ov, bs)
  {
    hide IsLoop;
  }

  // ---------------------------------------------------------------- stretches of a loop

  lemma PathBegins(max: nat, s: Loop)
    ensures Leads({}, {}, max, [s], s, s)
  {
  }

  lemma StaysThere(cs: CursorState)
    ensures ReachesTo({}, [cs], cs, cs)
  {
  }

  lemma NothingFetched(o: Source, b: Source)
    ensures AreFetched(o, b, {}, {})
  {
  }

  lemma OneMoreAnswer(s: Source, later: Source, answers: set<Answered>, a: Answered)
    requires AreAnswers(s, answers) && s.ExtendedBy(later) && IsAnswer(later, a)
    ensures AreAnswers(later, answers + {a})
  {
    hide IsAnswer;
    AnswersAreStable(s, later, answers);
  }

  /** What both cursors fetched. */
  ghost predicate AreFetched(o: Source, b: Source, os: set<Answered>, bs: set<Answered>) {
    AreAnswers(o, os) && AreAnswers(b, bs)
  }

  /** What cursors fetched before and after counts together. */
  lemma FetchesJoin(o: Source, b: Source, os: set<Answered>, bs: set<Answered>,
                    laterO: Source, laterB: Source, moreOs: set<Answered>, moreBs: set<Answered>)
    requires o.ExtendedBy(laterO) && b.ExtendedBy(laterB)
    requires AreFetched(o, b, os, bs) && AreFetched(laterO, laterB, moreOs, moreBs)
    ensures AreFetched(laterO, laterB, os + moreOs, bs + moreBs)
  {
    AnswersAreStable(o, laterO, os);
    AnswersAreStable(b, laterB, bs);
    MoreAnswers(laterO, os, moreOs);
    MoreAnswers(laterB, bs, moreBs);
  }

  lemma NothingEmitted(shown: seq<Entry>)
    ensures shown + [] == shown
  {
  }

  /** The pages that one cursor fetches in a row. */
  predicate Reaches(answers: set<Answered>, path: seq<CursorState>) {
    path != [] && forall i :: 0 <= i < |path| - 1 ==> Fetches(answers, path[i], path[i + 1])
  }

  /** From one position to another. */
  predicate ReachesTo(answers: set<Answered>, path: seq<CursorState>, cs: CursorState, to: CursorState) {
    Reaches(answers, path) && path[0] == cs && path[|path| - 1] == to
  }

  lemma MoreFetches(answers: set<Answered>, path: seq<CursorState>, cs: CursorState, to: CursorState,
                    more: set<Answered>, next: CursorState)
    requires ReachesTo(answers, path, cs, to) && Fetches(more, to, next)
    ensures ReachesTo(answers + more, path + [next], cs, next)
  {
    var all := path + [next];
    hide TakesPage, Loaded;
    forall i | 0 <= i < |all| - 1 ensures Fetches(answers + more, all[i], all[i + 1]) {
      if i < |path| - 1 {
        assert Fetches(answers, path[i], path[i + 1]);
      }
    }
  }

  lemma StepOfMore(os: set<Answered>, bs: set<Answered>, moreOs: set<Answered>, moreBs: set<Answered>, max: nat,
                   s: Loop, t: Loop)
    requires LoopStep(os, bs, max, s, t) && os <= moreOs && bs <= moreBs
    ensures LoopStep(moreOs, moreBs, max, s, t)
  {
    hide TakesPage, Loaded, Emits;
  }

  function Join(path: seq<Loop>, more: seq<Loop>): seq<Loop> {
    if more == [] then path else path + more[1..]
  }

  /** Two stretches of which the second begins where the first ends. */
  lemma PathsJoin(os: set<Answered>, bs: set<Answered>, max: nat, path: seq<Loop>,
                  moreOs: set<Answered>, moreBs: set<Answered>, more: seq<Loop>, s: Loop, m: Loop, t: Loop)
    requires Leads(os, bs, max, path, s, m) && Leads(moreOs, moreBs, max, more, m, t)
    ensures Leads(os + moreOs, bs + moreBs, max, Join(path, more), s, t)
  {
    var all := Join(path, more);
    hide LoopStep;
    forall i | 0 <= i < |all| - 1 ensures LoopStep(os + moreOs, bs + moreBs, max, all[i], all[i + 1]) {
      if i < |path| - 1 {
        StepOfMore(os, bs, os + moreOs, bs + moreBs, max, path[i], path[i + 1]);
      } else {
        var k := i - (|path| - 1);
        assert all[i] == more[k] && all[i + 1] == more[k + 1];
        StepOfMore(moreOs, moreBs, os + moreOs, bs + moreBs, max, more[k], more[k + 1]);
      }
    }
  }

  lemma EmitJoins(os: set<Answered>, bs: set<Answered>, max: nat, path: seq<Loop>, s: Loop, m: Loop, next: Loop)
    requires Leads(os, bs, max, path, s, m) && |m.shown| < max && Emits(m, next)
    ensures Leads(os, bs, max, path + [next], s, next)
  {
    var all := path + [next];
    hide Fetches, Emits;
    forall i | 0 <= i < |all| - 1 ensures LoopStep(os, bs, max, all[i], all[i + 1]) {
      if i < |path| - 1 {
        assert LoopStep(os, bs, max, path[i], path[i + 1]);
      }
    }
  }

  /** Both cursors fetch, one after the other. */
  lemma BothPaths(os: set<Answered>, ocs: seq<CursorState>, bs: set<Answered>, bcs: seq<CursorState>, max: nat, s: Loop,
                  oc: CursorState, bc: CursorState)
      returns (path: seq<Loop>)
    requires ReachesTo(os, ocs, s.oc, oc) && ReachesTo(bs, bcs, s.bc, bc)
    ensures Leads(os, bs, max, path, s, Loop(oc, bc, s.shown))
  {
    hide LoopStep, Fetches;
    var m := s.(oc := oc);
    var first := OverlayPath(os, ocs, max, s);
    var second := BaselinePath(bs, bcs, max, m);
    PathsJoin(os, {}, max, first, {}, bs, second, s, m, m.(bc := bc));
    path := Join(first, second);
    assert os + {} == os && {} + bs == bs;
  }

  /** The overlay's cursor fetches. */
  lemma OverlayPath(answers: set<Answered>, cs: seq<CursorState>, max: nat, s: Loop) returns (path: seq<Loop>)
    requires Reaches(answers, cs) && cs[0] == s.oc
    ensures Leads(answers, {}, max, path, s, s.(oc := cs[|cs| - 1]))
  {
    path := seq(|cs|, i requires 0 <= i < |cs| => s.(oc := cs[i]));
    hide Fetches;
  }

  /** The baseline's cursor fetches. */
  lemma BaselinePath(answers: set<Answered>, cs: seq<CursorState>, max: nat, s: Loop) returns (path: seq<Loop>)
    requires Reaches(answers, cs) && cs[0] == s.bc
    ensures Leads({}, answers, max, path, s, s.(bc := cs[|cs| - 1]))
  {
    path := seq(|cs|, i requires 0 <= i < |cs| => s.(bc := cs[i]));
    hide Fetches;
  }

  // ---------------------------------------------------------------- the answers of a store on one backend

  /** A page that a store on one backend answers with; a missing bucket counts as an empty page. */
  ghost predicate IsAnswer(s: Source, a: Answered) {
    exists shown :: ShowsPage(s, a.token, a.page, shown)
  }

  lemma MissingIsAnswer(s: Source, after: string)
    requires s.raw == [] && s.Knows(after)
    ensures IsAnswer(s, Answered(after, Page([], [], false, "")))
  {
    assert s.RawRest(after) == [];
    assert ShowsPage(s, after, Page([], [], false, ""), []);
  }

  /** A cursor that takes up a page of its store streams the same as before. */
  lemma PageIsTaken(s: Source, cs: CursorState, page: ListPage, shown: seq<Entry>)
    requires ShowsPage(s, cs.after, page, shown) && cs.remaining == [] && !cs.done
    ensures MergedPage(page.objects, page.commonPrefixes) == shown
    ensures var a, next := Answered(cs.after, page), CursorState(page.nextToken, shown, !page.truncated);
            && s.KnowsState(cs) && s.KnowsState(next) && s.Stream(next) == s.Stream(cs)
            && Fetches({a}, cs, next) && IsAnswer(s, a)
            && (page.truncated ==> |s.RawRest(page.nextToken)| < |s.RawRest(cs.after)|)
  {
    MergedPageRestores(shown);
    hide MergedPage, Visible, After, Objects, Prefixes;
    StreamOfPage(s, cs, page, shown);
    var a, next := Answered(cs.after, page), CursorState(page.nextToken, shown, !page.truncated);
    assert TakesPage(a.page, next);
  }

  ghost predicate AreAnswers(s: Source, answers: set<Answered>) {
    forall a :: a in answers ==> IsAnswer(s, a)
  }

  /** Answers stay answers while more tokens are handed out. */
  lemma AnswersAreStable(s: Source, later: Source, answers: set<Answered>)
    requires AreAnswers(s, answers) && s.ExtendedBy(later)
    ensures AreAnswers(later, answers)
  {
    forall a | a in answers ensures IsAnswer(later, a) {
      assert IsAnswer(s, a);
      var shown :| ShowsPage(s, a.token, a.page, shown);
      PageIsStable(s, later, a.token, a.page, shown);
    }
  }

  lemma PageIsStable(s: Source, later: Source, after: string, page: ListPage, shown: seq<Entry>)
    requires ShowsPage(s, after, page, shown) && s.ExtendedBy(later)
    ensures ShowsPage(later, after, page, shown)
  {
    hide Visible, After, ShowsRun;
  }

  lemma MoreAnswers(s: Source, answers: set<Answered>, more: set<Answered>)
    requires AreAnswers(s, answers) && AreAnswers(s, more)
    ensures AreAnswers(s, answers + more)
  {
    hide IsAnswer;
  }
}
