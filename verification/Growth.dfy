/**
 Listing a bucket that grows. Writes may reach the overlay between any two backend requests of
 a listing, so pages of one listing are cut from different contents. A step of this machine is
 one write, one backend page, one turn of the merge loop, the end of a page, at which a session
 saves both cursors, or a request that resumes one of the sessions: the next page, or a retry
 after a failure or of an old token.
 */
module Growth {
  import opened Order
  import opened Results
  import opened Listing
  import opened KeyMapping
  import opened Streams
  import opened S3Store
  import opened Loops

  /**
   One backend's cursor: the key its token resumes after, if any, in the key space of the
   backend, where client keys live below `root`.
   */
  datatype Cursor = Cursor(root: string, after: Option<string>, rest: seq<Entry>, done: bool)

  /** Where a listing is: both cursors, and the entries that the pages up to there show. */
  datatype Place = Place(oc: Cursor, bc: Cursor, emitted: seq<Entry>)

  /** The contents of both backends by now, the listing in progress, and where its sessions resume. */
  datatype State = State(overlay: map<string, Object>, baseline: set<string>, at: Place, saved: seq<Place>)

  datatype Query = Query(prefix: string, delimiter: string)

  datatype KeyPage = KeyPage(entries: seq<Entry>, next: Option<string>)

  /** Whether a page resumed there may show a client key. */
  predicate Above(root: string, after: Option<string>, key: string) {
    after.None? || Less(after.value, root + key)
  }

  /**
   A backend page by its keys: of the keys present now, those behind the resume position, up to
   the next one if there is one.
   */
  ghost predicate IsPageOf(keys: set<string>, root: string, after: Option<string>, page: KeyPage) {
    && Ordered(page.entries)
    && (forall k :: HasKey(page.entries, k) <==>
                    k in keys && Above(root, after, k) && (page.next.Some? ==> !Above(root, page.next, k)))
    && (page.next.Some? && after.Some? ==> Less(after.value, page.next.value))
  }

  ghost function EntryKeys(objects: map<string, Object>, q: Query): set<string> {
    GroupKeys(objects.Keys, q.prefix, q.delimiter)
  }

  function Fetched(c: Cursor, page: KeyPage): Cursor {
    c.(after := page.next, rest := page.entries, done := page.next.None?)
  }

  predicate HasLoaded(c: Cursor) {
    c.rest != [] || c.done
  }

  lemma KeysOfListing(client: map<string, Object>, q: Query, shown: seq<Entry>, root: string,
                      after: Option<string>, next: Option<string>)
    requires forall e :: e in shown <==>
               e in BucketListing(client, q.prefix, q.delimiter)
               && Above(root, after, e.Key()) && (next.Some? ==> !Above(root, next, e.Key()))
    ensures forall k :: HasKey(shown, k) <==>
              k in EntryKeys(client, q) && Above(root, after, k) && (next.Some? ==> !Above(root, next, k))
  {
    var g := Grouped(client, q.prefix, q.delimiter);
    forall k | k in EntryKeys(client, q) && Above(root, after, k) && (next.Some? ==> !Above(root, next, k))
      ensures HasKey(shown, k)
    {
      assert g[k] in BucketListing(client, q.prefix, q.delimiter);
      assert g[k] in shown;
    }
  }

  /** The key behind which a token of a backend resumes. */
  function CutOf(s: Source, token: string): Option<string>
    requires s.Knows(token)
  {
    if token == "" then None else Some(s.tokens[token])
  }

  /** A backend that serves a bucket's listing. */
  ghost predicate Lists(s: Source, stored: map<string, Object>, q: Query) {
    IsBucketName(s.bucket) && s.raw == BucketListing(stored, BackendPrefix(s.mapping, s.bucket, q.prefix), q.delimiter)
  }

  function Client(s: Source, stored: map<string, Object>): map<string, Object> {
    ClientObjects(s.mapping, stored, s.bucket)
  }

  lemma RestEntry(s: Source, stored: map<string, Object>, q: Query, token: string, e: Entry)
    requires Lists(s, stored, q) && s.Knows(token)
    ensures Ordered(s.Remaining(token))
    ensures e in s.Remaining(token) <==>
              e in BucketListing(Client(s, stored), q.prefix, q.delimiter)
              && Above(ListPrefix(s.mapping, s.bucket), CutOf(s, token), e.Key())
  {
    hide BucketListing, Visible, ClientObjects, BackendPrefix, ListPrefix, RestAfter, Ordered;
    VisibleRest(s.mapping, s.bucket, stored, q.prefix, q.delimiter, CutOf(s, token), e);
    VisibleOrdered(s.mapping, s.bucket, s.RawRest(token));
  }

  /** What is left at a token are the entry keys above it. */
  lemma RestKeys(s: Source, stored: map<string, Object>, q: Query, token: string)
    requires Lists(s, stored, q) && s.Knows(token)
    ensures Ordered(s.Remaining(token))
    ensures forall k :: HasKey(s.Remaining(token), k) <==>
              k in EntryKeys(Client(s, stored), q) && Above(ListPrefix(s.mapping, s.bucket), CutOf(s, token), k)
  {
    hide BucketListing, ListPrefix, Above, EntryKeys, Lists, Source.Remaining, Client, Ordered;
    var e0 := PrefixEntry("");
    RestEntry(s, stored, q, token, e0);
    var root, cut, end := ListPrefix(s.mapping, s.bucket), CutOf(s, token), None;
    forall e ensures e in s.Remaining(token) <==>
                       e in BucketListing(Client(s, stored), q.prefix, q.delimiter)
                       && Above(root, cut, e.Key()) && (end.Some? ==> !Above(root, end, e.Key())) {
      RestEntry(s, stored, q, token, e);
    }
    KeysOfListing(Client(s, stored), q, s.Remaining(token), root, cut, end);
  }

  /** Of an ordered list that is cut in two, no key is on both sides. */
  lemma CutKeys(shown: seq<Entry>, next: seq<Entry>, k: string)
    requires Ordered(shown + next)
    ensures HasKey(shown, k) <==> HasKey(shown + next, k) && !HasKey(next, k)
  {
    if HasKey(shown, k) {
      var i :| 0 <= i < |shown| && shown[i].Key() == k;
      assert (shown + next)[i] == shown[i] && (shown + next)[i] in shown + next;
      forall j | 0 <= j < |next| ensures next[j].Key() != k {
        assert (shown + next)[|shown| + j] == next[j];
        LessIrreflexive(k);
      }
    }
  }

  lemma {:induction false} LaterCutsLeaveLess(s: seq<Entry>, a: string, b: string)
    requires !Less(a, b)
    ensures |After(s, a)| <= |After(s, b)|
  {
    if s != [] && !Less(b, s[0].Key()) {
      LessTotal(a, b);
      if Less(a, s[0].Key()) {
        LessTotal(s[0].Key(), b);
        if Less(s[0].Key(), b) {
          LessTransitive(a, s[0].Key(), b);
        }
      }
      LaterCutsLeaveLess(s[1..], a, b);
    }
  }

  /** A truncated page moves the resume position forward. */
  lemma PagesAdvance(s: Source, token: string, next: string)
    requires s.Knows(token) && s.Knows(next) && |s.RawRest(next)| < |s.RawRest(token)|
    ensures CutOf(s, token).Some? && CutOf(s, next).Some? ==> Less(CutOf(s, token).value, CutOf(s, next).value)
  {
    if token != "" && next != "" && !Less(s.tokens[token], s.tokens[next]) {
      LaterCutsLeaveLess(s.raw, s.tokens[token], s.tokens[next]);
    }
  }

  /** The pages that a store answers with are pages of this machine, of what its bucket holds at the time. */
  lemma BackendPagesArePages(s: Source, stored: map<string, Object>, q: Query, after: string, page: ListPage,
                             shown: seq<Entry>)
    requires Lists(s, stored, q) && ShowsPage(s, after, page, shown)
    ensures IsPageOf(EntryKeys(Client(s, stored), q), ListPrefix(s.mapping, s.bucket), CutOf(s, after),
                     KeyPage(shown, if page.truncated then CutOf(s, page.nextToken) else None))
  {
    hide BucketListing, Visible, ClientObjects, BackendPrefix, ListPrefix, Above, EntryKeys, Lists, Source.Remaining;
    hide Client, CutOf;
    hide Source.RawRest, HasKey, Objects, Prefixes;
    RestKeys(s, stored, q, after);
    if page.truncated {
      RestKeys(s, stored, q, page.nextToken);
      PagesAdvance(s, after, page.nextToken);
      forall k ensures HasKey(shown, k) <==> HasKey(s.Remaining(after), k) && !HasKey(s.Remaining(page.nextToken), k) {
        CutKeys(shown, s.Remaining(page.nextToken), k);
      }
      var next := CutOf(s, page.nextToken);
      assert next.Some? by { CutIsSome(s, page.nextToken); }
    }
  }

  lemma CutIsSome(s: Source, token: string)
    requires s.Knows(token) && token != ""
    ensures CutOf(s, token).Some?
  {
  }

  // ---------------------------------------------------------------- steps

  /** A write to the overlay, of a new key or an old one. */
  ghost predicate Put(s: State, t: State) {
    exists k, o :: t == Written(s, k, o)
  }

  function Written(s: State, k: string, o: Object): State {
    s.(overlay := s.overlay[k := o])
  }

  ghost predicate LoadOverlay(q: Query, s: State, t: State) {
    && !HasLoaded(s.at.oc)
    && exists page ::
         IsPageOf(EntryKeys(s.overlay, q), s.at.oc.root, s.at.oc.after, page)
         && t == s.(at := s.at.(oc := Fetched(s.at.oc, page)))
  }

  /** A client bucket without any key yet may be reported as missing, which ends the stream. */
  ghost predicate MissingOverlay(q: Query, s: State, t: State) {
    && !HasLoaded(s.at.oc) && EntryKeys(s.overlay, q) == {}
    && t == s.(at := s.at.(oc := s.at.oc.(done := true)))
  }

  ghost predicate LoadBaseline(s: State, t: State) {
    && !HasLoaded(s.at.bc)
    && exists page ::
         IsPageOf(s.baseline, s.at.bc.root, s.at.bc.after, page)
         && t == s.(at := s.at.(bc := Fetched(s.at.bc, page)))
  }

  predicate EmitsAt(p: Place, r: Place) {
    && HasLoaded(p.oc) && HasLoaded(p.bc) && (p.oc.rest != [] || p.bc.rest != [])
    && var pick := Next(p.oc.rest, p.bc.rest);
       r == Place(p.oc.(rest := pick.overlay), p.bc.(rest := pick.baseline), p.emitted + [pick.entry])
  }

  predicate Emit(s: State, t: State) {
    EmitsAt(s.at, t.at) && t == s.(at := t.at)
  }

  /** The end of a page: its session saves where the listing is. */
  predicate Save(s: State, t: State) {
    t == s.(saved := s.saved + [s.at])
  }

  /** A request that presents the token of any session: what came after it is listed anew. */
  predicate Resume(s: State, t: State) {
    t.at in s.saved && t == s.(at := t.at)
  }

  ghost predicate Step(q: Query, s: State, t: State) {
    || Put(s, t) || LoadOverlay(q, s, t) || MissingOverlay(q, s, t) || LoadBaseline(s, t) || Emit(s, t)
    || Save(s, t) || Resume(s, t)
  }

  /** Both cursors are at the start, and so are requests without a token. */
  predicate Initial(s: State) {
    && s.at.oc.after.None? && s.at.oc.rest == [] && !s.at.oc.done
    && s.at.bc.after.None? && s.at.bc.rest == [] && !s.at.bc.done
    && s.at.emitted == [] && s.saved == [s.at]
  }

  ghost predicate IsRun(q: Query, run: seq<State>) {
    && run != [] && Initial(run[0])
    && forall i :: 0 <= i < |run| - 1 ==> Step(q, run[i], run[i + 1])
  }

  predicate Exhausted(p: Place) {
    p.oc.rest == [] && p.oc.done && p.bc.rest == [] && p.bc.done
  }

  // ---------------------------------------------------------------- the invariant

  /** Emitted entries lie below everything a cursor holds and everything it may still fetch. */
  ghost predicate Separated(emitted: seq<Entry>, c: Cursor) {
    && Ordered(c.rest)
    && (forall e, x :: e in emitted && x in c.rest ==> Less(e.Key(), x.Key()))
    && (!c.done ==> forall e :: e in emitted ==> !Above(c.root, c.after, e.Key()))
    && (!c.done ==> forall x :: x in c.rest ==> !Above(c.root, c.after, x.Key()))
  }

  /** No key of a set is lost: it was emitted, is at hand, or is still to be fetched. */
  ghost predicate Covers(keys: set<string>, emitted: seq<Entry>, c: Cursor) {
    forall k :: k in keys ==>
      HasKey(emitted, k) || HasKey(c.rest, k) || (!c.done && Above(c.root, c.after, k))
  }

  ghost predicate Stems(s: seq<Entry>, keys: set<string>) {
    forall e :: e in s ==> e.Key() in keys
  }

  /**
   What holds of a listing at any place: `first` are the overlay's entry keys at its start, `keys`
   those by now.
   */
  ghost predicate IsSound(first: set<string>, keys: set<string>, baseline: set<string>, p: Place) {
    && Ordered(p.emitted)
    && Separated(p.emitted, p.oc) && Separated(p.emitted, p.bc)
    && Covers(first, p.emitted, p.oc)
    && Covers(baseline, p.emitted, p.bc)
    && Stems(p.oc.rest, keys)
    && Stems(p.bc.rest, baseline)
    && Stems(p.emitted, keys + baseline)
  }

  /** The listing in progress is sound, and so is every place at which it may be resumed. */
  ghost predicate Invariant(q: Query, first: State, s: State) {
    && s.baseline == first.baseline
    && EntryKeys(first.overlay, q) <= EntryKeys(s.overlay, q)
    && IsSound(EntryKeys(first.overlay, q), EntryKeys(s.overlay, q), s.baseline, s.at)
    && forall p :: p in s.saved ==> IsSound(EntryKeys(first.overlay, q), EntryKeys(s.overlay, q), s.baseline, p)
  }

  /** What a sound place comes to when both backends are exhausted. */
  lemma SoundEnd(first: set<string>, keys: set<string>, baseline: set<string>, p: Place)
    requires IsSound(first, keys, baseline, p) && Exhausted(p)
    ensures Ordered(p.emitted)
    ensures forall k :: HasKey(p.emitted, k) ==> k in keys + baseline
    ensures forall k :: k in first + baseline ==> HasKey(p.emitted, k)
  {
    hide Above, Ordered;
  }

  /** More keys do no harm to any place. */
  lemma GrowthKeepsSound(first: set<string>, keys: set<string>, more: set<string>, baseline: set<string>, p: Place)
    requires IsSound(first, keys, baseline, p) && keys <= more
    ensures IsSound(first, more, baseline, p)
  {
  }

  lemma PutGrows(q: Query, objects: map<string, Object>, k: string, o: Object)
    ensures EntryKeys(objects, q) <= EntryKeys(objects[k := o], q)
  {
    assert objects[k := o].Keys == objects.Keys + {k};
    GroupKeysUnion(objects.Keys, {k}, q.prefix, q.delimiter);
  }

  lemma PutKeeps(q: Query, first: State, s: State, t: State)
    requires Invariant(q, first, s) && Put(s, t)
    ensures Invariant(q, first, t)
  {
    hide EntryKeys, IsSound;
    var k, o :| t == Written(s, k, o);
    PutGrows(q, s.overlay, k, o);
    var f, now, more := EntryKeys(first.overlay, q), EntryKeys(s.overlay, q), EntryKeys(t.overlay, q);
    GrowthKeepsSound(f, now, more, s.baseline, s.at);
    forall p | p in s.saved ensures IsSound(f, more, s.baseline, p) {
      GrowthKeepsSound(f, now, more, s.baseline, p);
    }
  }

  /** Fetching a page keeps one cursor's part of the invariant. */
  lemma FetchKeeps(keys: set<string>, present: set<string>, emitted: seq<Entry>, c: Cursor, page: KeyPage)
    requires keys <= present && !HasLoaded(c)
    requires Separated(emitted, c) && Covers(keys, emitted, c)
    requires IsPageOf(present, c.root, c.after, page)
    ensures Separated(emitted, Fetched(c, page)) && Covers(keys, emitted, Fetched(c, page))
    ensures Stems(page.entries, present)
  {
    var d := Fetched(c, page);
    forall x | x in page.entries ensures x.Key() in present && Above(c.root, c.after, x.Key())
                                         && (page.next.Some? ==> !Above(c.root, page.next, x.Key())) {
      assert HasKey(page.entries, x.Key());
    }
    forall e, x | e in emitted && x in page.entries ensures Less(e.Key(), x.Key()) {
      BelowAndAbove(c.root, c.after, e.Key(), x.Key());
    }
    forall e | e in emitted && !d.done ensures !Above(d.root, d.after, e.Key()) {
      if Less(page.next.value, c.root + e.Key()) {
        LessTransitive(c.after.value, page.next.value, c.root + e.Key());
      }
    }
  }

  /** A key not above a position lies below every key above it. */
  lemma {:induction false} BelowAndAbove(root: string, after: Option<string>, low: string, high: string)
    requires after.Some? && !Above(root, after, low) && Above(root, after, high)
    ensures Less(low, high)
  {
    LessTotal(after.value, root + low);
    if Less(root + low, after.value) {
      LessTransitive(root + low, after.value, root + high);
    }
    LessBelowPrefix(root, low, high);
  }

  lemma LoadKeeps(q: Query, first: State, s: State, t: State)
    requires Invariant(q, first, s) && (LoadOverlay(q, s, t) || LoadBaseline(s, t) || MissingOverlay(q, s, t))
    ensures Invariant(q, first, t)
  {
    hide EntryKeys, Above, HasLoaded;
    var f, now := EntryKeys(first.overlay, q), EntryKeys(s.overlay, q);
    if LoadOverlay(q, s, t) {
      var page :| IsPageOf(now, s.at.oc.root, s.at.oc.after, page)
          && t == s.(at := s.at.(oc := Fetched(s.at.oc, page)));
      FetchKeeps(f, now, s.at.emitted, s.at.oc, page);
    } else if LoadBaseline(s, t) {
      var page :| IsPageOf(s.baseline, s.at.bc.root, s.at.bc.after, page)
          && t == s.(at := s.at.(bc := Fetched(s.at.bc, page)));
      FetchKeeps(s.baseline, s.baseline, s.at.emitted, s.at.bc, page);
    }
  }

  /** What a turn of the merge does to one of the two lists. */
  predicate Consumes(s: seq<Entry>, entry: Entry, rest: seq<Entry>) {
    && (rest == s || (s != [] && rest == s[1..] && s[0].Key() == entry.Key()))
    && (s != [] ==> entry.Key() == s[0].Key() || Less(entry.Key(), s[0].Key()))
  }

  lemma NextConsumes(o: seq<Entry>, b: seq<Entry>)
    requires o != [] || b != []
    ensures Consumes(o, Next(o, b).entry, Next(o, b).overlay) && Consumes(b, Next(o, b).entry, Next(o, b).baseline)
    ensures Next(o, b).entry in o || Next(o, b).entry in b
  {
    if o != [] && b != [] {
      LessTotal(o[0].Key(), b[0].Key());
    }
  }

  /** Emitting the least entry keeps one cursor's part of the invariant. */
  lemma EmitKeepsCursor(keys: set<string>, emitted: seq<Entry>, entry: Entry, c: Cursor, rest: seq<Entry>)
    requires Separated(emitted, c) && Covers(keys, emitted, c) && HasLoaded(c)
    requires Consumes(c.rest, entry, rest)
    requires forall x :: x in rest ==> Less(entry.Key(), x.Key())
    ensures Separated(emitted + [entry], c.(rest := rest))
    ensures Covers(keys, emitted + [entry], c.(rest := rest))
  {
    var d := c.(rest := rest);
    var all := emitted + [entry];
    assert forall x :: x in rest ==> x in c.rest;
    if !c.done {
      assert c.rest[0] in c.rest;
      LessBelowPrefix(c.root, entry.Key(), c.rest[0].Key());
      if Above(c.root, c.after, entry.Key()) && Less(entry.Key(), c.rest[0].Key()) {
        LessTransitive(c.after.value, c.root + entry.Key(), c.root + c.rest[0].Key());
      }
      assert !Above(c.root, c.after, entry.Key());
    }
    forall k | k in keys ensures HasKey(all, k) || HasKey(d.rest, k) || (!d.done && Above(d.root, d.after, k)) {
      if HasKey(emitted, k) {
        var e :| e in emitted && e.Key() == k;
        assert e in all;
      } else if HasKey(c.rest, k) {
        var e :| e in c.rest && e.Key() == k;
        if e !in rest {
          assert e == c.rest[0];
          assert entry in all;
        }
      }
    }
  }

  lemma EmitKeeps(first: set<string>, keys: set<string>, baseline: set<string>, p: Place, r: Place)
    requires IsSound(first, keys, baseline, p) && EmitsAt(p, r)
    ensures IsSound(first, keys, baseline, r)
  {
    hide Above, Covers, Next, Less;
    var o, b := p.oc.rest, p.bc.rest;
    var pick := Next(o, b);
    forall x | x in pick.overlay || x in pick.baseline ensures Less(pick.entry.Key(), x.Key()) {
      NextIsLeast(o, b, x);
    }
    NextConsumes(o, b);
    EmitKeepsCursor(first, p.emitted, pick.entry, p.oc, pick.overlay);
    EmitKeepsCursor(baseline, p.emitted, pick.entry, p.bc, pick.baseline);
    EmittedStaysOrdered(p.emitted, pick.entry, o, b);
  }

  lemma EmittedStaysOrdered(emitted: seq<Entry>, entry: Entry, o: seq<Entry>, b: seq<Entry>)
    requires Ordered(emitted) && (entry in o || entry in b)
    requires forall e, x :: e in emitted && (x in o || x in b) ==> Less(e.Key(), x.Key())
    ensures Ordered(emitted + [entry])
  {
  }

  lemma StepKeeps(q: Query, first: State, s: State, t: State)
    requires Invariant(q, first, s) && Step(q, s, t)
    ensures Invariant(q, first, t)
  {
    if Put(s, t) {
      PutKeeps(q, first, s, t);
    } else if Emit(s, t) {
      EmitKeeps(EntryKeys(first.overlay, q), EntryKeys(t.overlay, q), t.baseline, s.at, t.at);
    } else if !Save(s, t) && !Resume(s, t) {
      LoadKeeps(q, first, s, t);
    }
  }

  lemma {:induction false} RunsKeepInvariant(q: Query, run: seq<State>, i: nat)
    requires IsRun(q, run) && i < |run|
    ensures Invariant(q, run[0], run[i])
  {
    if i == 0 {
      InitialIsSound(q, run[0]);
    } else {
      RunsKeepInvariant(q, run, i - 1);
      StepKeeps(q, run[0], run[i - 1], run[i]);
    }
  }

  lemma InitialIsSound(q: Query, s: State)
    requires Initial(s)
    ensures Invariant(q, s, s)
  {
  }

  /**
   At every moment of every run the keys listed so far strictly increase and exist, and once
   both backends are exhausted every key that existed at the start has been listed; as the
   keys strictly increase, exactly once. Requests that fail and are retried, and tokens that are
   presented again, make no difference to what the pages up to there show.
   */
  lemma GrowingListing(q: Query, run: seq<State>, i: nat)
    requires IsRun(q, run) && i < |run|
    ensures Ordered(run[i].at.emitted)
    ensures forall k :: HasKey(run[i].at.emitted, k) ==> k in EntryKeys(run[i].overlay, q) + run[0].baseline
    ensures Exhausted(run[i].at) ==>
              forall k :: k in EntryKeys(run[0].overlay, q) + run[0].baseline ==> HasKey(run[i].at.emitted, k)
  {
    RunsKeepInvariant(q, run, i);
  }

  // ---------------------------------------------------------------- requests of the class

  /** A cursor of the class; behind the last page it does not matter where it would resume. */
  function CursorOf(s: Source, cs: CursorState): Cursor
    requires s.KnowsState(cs)
  {
    Cursor(ListPrefix(s.mapping, s.bucket), if cs.done then None else CutOf(s, cs.after), cs.remaining, cs.done)
  }

  /** The place of a merge loop, behind the pages listed before. */
  function PlaceOf(o: Source, b: Source, l: Loop, before: seq<Entry>): Place
    requires o.KnowsState(l.oc) && b.KnowsState(l.bc)
  {
    Place(CursorOf(o, l.oc), CursorOf(b, l.bc), before + l.shown)
  }

  /** A cursor of the class fetches a page of what its backend holds at the time. */
  lemma FetchIsLoad(s: Source, stored: map<string, Object>, q: Query, answers: set<Answered>, cs: CursorState,
                    next: CursorState)
      returns (page: KeyPage)
    requires Lists(s, stored, q) && AreAnswers(s, answers) && s.KnowsState(cs) && Fetches(answers, cs, next)
    ensures s.KnowsState(next) && !HasLoaded(CursorOf(s, cs))
    ensures IsPageOf(EntryKeys(Client(s, stored), q), CursorOf(s, cs).root, CursorOf(s, cs).after, page)
    ensures CursorOf(s, next) == Fetched(CursorOf(s, cs), page)
  {
    var a :| a in answers && a.token == cs.after && TakesPage(a.page, next);
    assert IsAnswer(s, a);
    var shown :| ShowsPage(s, a.token, a.page, shown);
    BackendPagesArePages(s, stored, q, cs.after, a.page, shown);
    MergedPageRestores(shown);
    hide MergedPage, Objects, Prefixes, Visible, After, Lists, Above, EntryKeys, Client, ListPrefix, IsPageOf;
    page := KeyPage(shown, if a.page.truncated then CutOf(s, a.page.nextToken) else None);
  }

  /** The machine, while one request is served: the overlay's bucket and the baseline's, and the loop's place. */
  function StateAt(o: Source, stored: map<string, Object>, b: Source, base: map<string, Object>, q: Query,
                   l: Loop, before: seq<Entry>, saved: seq<Place>): State
    requires o.KnowsState(l.oc) && b.KnowsState(l.bc)
  {
    State(Client(o, stored), GroupKeys(Client(b, base).Keys, q.prefix, q.delimiter), PlaceOf(o, b, l, before), saved)
  }

  /** A step of the class's merge loop is a step of this machine. */
  lemma LoopStepIsStep(o: Source, stored: map<string, Object>, b: Source, base: map<string, Object>, q: Query,
                       os: set<Answered>, bs: set<Answered>, max: nat, s: Loop, t: Loop,
                       before: seq<Entry>, saved: seq<Place>)
    requires Lists(o, stored, q) && Lists(b, base, q) && AreFetched(o, b, os, bs)
    requires o.KnowsState(s.oc) && b.KnowsState(s.bc) && LoopStep(os, bs, max, s, t)
    ensures o.KnowsState(t.oc) && b.KnowsState(t.bc)
    ensures Step(q, StateAt(o, stored, b, base, q, s, before, saved), StateAt(o, stored, b, base, q, t, before, saved))
  {
    hide Lists, Client, AreAnswers, Fetches, IsPageOf, CutOf, ListPrefix;
    if Fetches(os, s.oc, t.oc) && t == s.(oc := t.oc) {
      var page := FetchIsLoad(o, stored, q, os, s.oc, t.oc);
      assert LoadOverlay(q, StateAt(o, stored, b, base, q, s, before, saved),
                         StateAt(o, stored, b, base, q, t, before, saved));
    } else if Fetches(bs, s.bc, t.bc) && t == s.(bc := t.bc) {
      var page := FetchIsLoad(b, base, q, bs, s.bc, t.bc);
      assert LoadBaseline(StateAt(o, stored, b, base, q, s, before, saved),
                          StateAt(o, stored, b, base, q, t, before, saved));
    } else {
      ConcatAssociative(before, s.shown, [Next(s.oc.remaining, s.bc.remaining).entry]);
      hide Next;
      assert Emit(StateAt(o, stored, b, base, q, s, before, saved), StateAt(o, stored, b, base, q, t, before, saved));
    }
  }

  /** So a whole request of the class is a run of it, and keeps its invariant. */
  lemma {:induction false} RequestsKeepInvariant(o: Source, stored: map<string, Object>, b: Source,
                                                 base: map<string, Object>, q: Query, os: set<Answered>,
                                                 bs: set<Answered>, max: nat, path: seq<Loop>, before: seq<Entry>,
                                                 saved: seq<Place>, first: State, i: nat)
    requires Lists(o, stored, q) && Lists(b, base, q) && AreFetched(o, b, os, bs)
    requires IsPath(os, bs, max, path) && i < |path| && o.KnowsState(path[0].oc) && b.KnowsState(path[0].bc)
    requires Invariant(q, first, StateAt(o, stored, b, base, q, path[0], before, saved))
    ensures o.KnowsState(path[i].oc) && b.KnowsState(path[i].bc)
    ensures Invariant(q, first, StateAt(o, stored, b, base, q, path[i], before, saved))
  {
    hide Lists, AreFetched, Invariant, Step, LoopStep, StateAt, Source.KnowsState;
    if i > 0 {
      RequestsKeepInvariant(o, stored, b, base, q, os, bs, max, path, before, saved, first, i - 1);
      assert LoopStep(os, bs, max, path[i - 1], path[i]);
      LoopStepIsStep(o, stored, b, base, q, os, bs, max, path[i - 1], path[i], before, saved);
      StepKeeps(q, first, StateAt(o, stored, b, base, q, path[i - 1], before, saved),
                StateAt(o, stored, b, base, q, path[i], before, saved));
    }
  }
}
