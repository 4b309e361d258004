/**
 What a backend's listing still has to show at a resume position: the meaning of the opaque
 continuation tokens and of the cursor states that sessions keep.
 */
module Streams {
  import opened Listing
  import opened KeyMapping

  /**
   The resume position of one backend's listing: the backend's token and the entries already
   fetched but not yet consumed by the merge.
   */
  datatype CursorState = CursorState(after: string, remaining: seq<Entry>, done: bool)

  const START := CursorState("", [], false)

  /**
   One listing of one backend: the physical entries in key order, and the key at which each
   continuation token handed out so far resumes.
   */
  datatype Source = Source(mapping: Mapping, bucket: string, raw: seq<Entry>, tokens: map<string, string>) {

    predicate Knows(token: string) {
      token == "" || token in tokens
    }

    function RawRest(token: string): seq<Entry>
      requires Knows(token)
    {
      RestAt(raw, tokens, token)
    }

    /** The client-visible entries from a token on. */
    function Remaining(token: string): seq<Entry>
      requires Knows(token)
    {
      Visible(mapping, bucket, RawRest(token))
    }

    predicate KnowsState(cs: CursorState) {
      KnownToken(cs, tokens)
    }

    /** Everything a cursor in this state will still stream. */
    function Stream(cs: CursorState): seq<Entry>
      requires KnowsState(cs)
    {
      cs.remaining + if cs.done then [] else Remaining(cs.after)
    }

    /** The listing by what remains at each of its tokens, the empty one included. */
    function AsFeed(): Feed {
      Feed(map t | t in tokens.Keys + {""} :: Remaining(t))
    }

    /** The same listing after more tokens were handed out. */
    predicate ExtendedBy(later: Source) {
      && later.mapping == mapping && later.bucket == bucket && later.raw == raw
      && TokensKept(tokens, later.tokens)
    }
  }

  /** A listing of any store, as what remains at each of its tokens; the empty one stands for the start. */
  datatype Feed = Feed(rests: map<string, seq<Entry>>) {

    predicate KnowsState(cs: CursorState) {
      cs.done || cs.after in rests
    }

    /** Everything a cursor in this state will still stream. */
    function Stream(cs: CursorState): seq<Entry>
      requires KnowsState(cs)
    {
      cs.remaining + if cs.done then [] else rests[cs.after]
    }

    /** Tokens keep their meaning while more are handed out. */
    predicate ExtendedBy(later: Feed) {
      forall t :: t in rests ==> t in later.rests && later.rests[t] == rests[t]
    }

    /** A page shows an ordered run of what remains at its token and leaves the rest to the next one. */
    ghost predicate IsPage(after: string, page: ListPage, shown: seq<Entry>) {
      && after in rests
      && (page.truncated ==> page.nextToken in rests)
      && ShowsRun(rests[after], page, shown, if page.truncated then rests[page.nextToken] else [])
    }
  }

  lemma FeedOfSource(s: Source, cs: CursorState)
    ensures s.AsFeed().KnowsState(cs) <==> s.KnowsState(cs)
    ensures s.KnowsState(cs) ==> s.AsFeed().Stream(cs) == s.Stream(cs)
  {
    hide Source.Remaining;
  }

  lemma FeedIsStable(s: Source, later: Source)
    requires s.ExtendedBy(later)
    ensures s.AsFeed().ExtendedBy(later.AsFeed())
  {
    hide Visible, After;
  }

  /** Whether a position resumes at a token that was handed out. */
  predicate KnownToken(cs: CursorState, tokens: map<string, string>) {
    cs.done || cs.after == "" || cs.after in tokens
  }

  /**
   What a page of any store's listing promises: its two halves are those of an ordered run of
   entries, which together with what remains at the next token is what remained at the given one.
   */
  ghost predicate ShowsRun(rest: seq<Entry>, page: ListPage, shown: seq<Entry>, next: seq<Entry>) {
    && Ordered(shown)
    && page.objects == Objects(shown)
    && page.commonPrefixes == Prefixes(shown)
    && if page.truncated then page.nextToken != "" && shown + next == rest else shown == rest
  }

  /** Tokens keep their meaning while more are handed out. */
  predicate TokensKept(before: map<string, string>, after: map<string, string>) {
    forall t :: t in before ==> t in after && after[t] == before[t]
  }

  lemma TokensStay(tokens: map<string, string>)
    ensures TokensKept(tokens, tokens)
  {
  }

  lemma TokensKeptTransitive(a: map<string, string>, b: map<string, string>, c: map<string, string>)
    requires TokensKept(a, b) && TokensKept(b, c)
    ensures TokensKept(a, c)
  {
  }

  lemma StreamIsStable(s: Source, later: Source, cs: CursorState)
    requires s.ExtendedBy(later) && s.KnowsState(cs)
    ensures later.KnowsState(cs) && later.Stream(cs) == s.Stream(cs)
  {
    hide Visible, After;
  }

  /** Consuming the head of the fetched entries consumes the head of the stream. */
  lemma StreamTail(s: Source, cs: CursorState, next: CursorState)
    requires s.KnowsState(cs) && cs.remaining != [] && next == cs.(remaining := cs.remaining[1..])
    ensures s.KnowsState(next) && s.Stream(cs) != [] && s.Stream(cs)[0] == cs.remaining[0]
    ensures s.Stream(next) == s.Stream(cs)[1..]
  {
    hide Source.Remaining;
  }
}
