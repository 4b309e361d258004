/**
 Listings as mathematical objects: which entries a bucket shows under a prefix and a
 delimiter, in which order, and how two listings merge.
 */
module Listing {
  import opened Order
  import opened Results
  import opened Text

  // ---------------------------------------------------------------- entities

  datatype Object = Object(data: string, etag: string, modified: int, contentType: string)

  datatype ObjectMeta =
    ObjectMeta(key: string, size: int, etag: string, lastModified: int, contentType: string)

  /** One item of a listing: an object or a common prefix. */
  datatype Entry = ObjectEntry(meta: ObjectMeta) | PrefixEntry(prefix: string) {
    function Key(): string {
      match this
      case ObjectEntry(meta) => meta.key
      case PrefixEntry(prefix) => prefix
    }
  }

  datatype ListParams = ListParams(prefix: string, delimiter: string, after: string, maxKeys: int)

  datatype ListPage =
    Page(objects: seq<ObjectMeta>, commonPrefixes: seq<string>, truncated: bool, nextToken: string)

  /** What a listing tells about an object; it does not carry the content type. */
  function Describe(key: string, o: Object): ObjectMeta {
    ObjectMeta(key, |o.data|, o.etag, o.modified, "")
  }

  /** What a HEAD of an object tells. */
  function FullMeta(key: string, o: Object): ObjectMeta {
    ObjectMeta(key, |o.data|, o.etag, o.modified, o.contentType)
  }

  // ---------------------------------------------------------------- grouping

  /** Whether a key is rolled up into a common prefix. */
  predicate IsGroup(prefix: string, delimiter: string, key: string)
    requires prefix <= key
  {
    delimiter != [] && Find(key[|prefix|..], delimiter).Some?
  }

  /** The key of the listing entry a key belongs to: itself, or its common prefix. */
  function GroupKey(prefix: string, delimiter: string, key: string): (g: string)
    requires prefix <= key
    ensures prefix <= g <= key
    ensures !IsGroup(prefix, delimiter, key) ==> g == key
  {
    if IsGroup(prefix, delimiter, key) then
      key[..|prefix| + Find(key[|prefix|..], delimiter).value + |delimiter|]
    else key
  }

  /**
   What grouping does, exactly: a key is rolled up if and only if the delimiter stands somewhere
   behind the prefix, into what lies in front of the first such place, the delimiter included.
   */
  lemma GroupingIs(prefix: string, delimiter: string, key: string)
    requires prefix <= key
    ensures IsGroup(prefix, delimiter, key) <==>
              delimiter != "" && exists i: nat :: StandsAt(key[|prefix|..], delimiter, i)
    ensures IsGroup(prefix, delimiter, key) ==>
              exists i: nat :: StandsAt(key[|prefix|..], delimiter, i)
                               && (forall k: nat :: k < i ==> !StandsAt(key[|prefix|..], delimiter, k))
                               && GroupKey(prefix, delimiter, key) == prefix + key[|prefix|..][..i] + delimiter
  {
    hide Find, StandsAt;
    if delimiter != "" {
      var rest := key[|prefix|..];
      FindIsFirst(rest, delimiter);
      if Find(rest, delimiter).Some? {
        var i := Find(rest, delimiter).value;
        assert StandsAt(rest, delimiter, i);
        StandsBehind(rest, delimiter, i);
        assert prefix + rest[..i] + delimiter == prefix + (rest[..i] + delimiter);
        assert key == prefix + rest;
        assert key[..|prefix| + i + |delimiter|] == prefix + rest[..i + |delimiter|];
      }
    }
  }

  /** On equal keys the object comes first. */
  lemma {:induction false} TiesTakeObjectFirst(objects: seq<ObjectMeta>, prefixes: seq<string>)
    requires objects != [] && prefixes != [] && objects[0].key == prefixes[0]
    ensures MergedPage(objects, prefixes) == [ObjectEntry(objects[0])] + MergedPage(objects[1..], prefixes)
  {
  }

  /** Of any two entries of an ordered list the key of the earlier one precedes that of the later one. */
  lemma OrderedIsByteOrder(s: seq<Entry>)
    requires Ordered(s)
    ensures forall i, j :: 0 <= i < j < |s| ==> Precedes(s[i].Key(), s[j].Key())
  {
    forall i, j | 0 <= i < j < |s| ensures Precedes(s[i].Key(), s[j].Key()) {
      LessIsByteOrder(s[i].Key(), s[j].Key());
    }
  }

  /** Whether an entry is an object or a common prefix shows in the entry's key alone. */
  lemma GroupKeyIsStable(prefix: string, delimiter: string, key: string)
    requires prefix <= key
    ensures var g := GroupKey(prefix, delimiter, key);
            IsGroup(prefix, delimiter, g) == IsGroup(prefix, delimiter, key)
            && GroupKey(prefix, delimiter, g) == g
  {
    if IsGroup(prefix, delimiter, key) {
      var rest := key[|prefix|..];
      var i := Find(rest, delimiter).value;
      FindInTruncation(rest, delimiter, i);
      hide Find;
      var g := GroupKey(prefix, delimiter, key);
      assert g[|prefix|..] == rest[..i + |delimiter|];
      assert Find(g[|prefix|..], delimiter) == Some(i);
      assert g[..|prefix| + i + |delimiter|] == g;
    }
  }

  function GroupKeys(keys: set<string>, prefix: string, delimiter: string): set<string> {
    set k | k in keys && prefix <= k :: GroupKey(prefix, delimiter, k)
  }

  lemma GroupKeysProperty(keys: set<string>, prefix: string, delimiter: string, g: string)
    requires g in GroupKeys(keys, prefix, delimiter)
    ensures prefix <= g && GroupKey(prefix, delimiter, g) == g
    ensures !IsGroup(prefix, delimiter, g) ==> g in keys
  {
    var k :| k in keys && prefix <= k && GroupKey(prefix, delimiter, k) == g;
    GroupKeyIsStable(prefix, delimiter, k);
  }

  /**
   The entries of a bucket's listing by their keys: every object below the prefix whose key
   has no delimiter after the prefix, and the common prefixes of all others.
   */
  function Grouped(objects: map<string, Object>, prefix: string, delimiter: string): (g: map<string, Entry>)
    ensures Keyed(g)
    ensures g.Keys == GroupKeys(objects.Keys, prefix, delimiter)
    ensures forall k :: k in g ==> prefix <= k
    ensures forall k :: k in g ==>
      g[k] == if IsGroup(prefix, delimiter, k) || k !in objects then PrefixEntry(k)
              else ObjectEntry(Describe(k, objects[k]))
  {
    var keys := GroupKeys(objects.Keys, prefix, delimiter);
    assert forall k :: k in keys ==> prefix <= k;
    map k | k in keys ::
      if IsGroup(prefix, delimiter, k) || k !in objects then PrefixEntry(k)
      else ObjectEntry(Describe(k, objects[k]))
  }

  /** With no delimiter a listing shows exactly the objects below the prefix. */
  lemma GroupedWithoutDelimiter(objects: map<string, Object>, prefix: string, k: string)
    ensures k in Grouped(objects, prefix, "") <==> k in objects && prefix <= k
    ensures k in Grouped(objects, prefix, "") ==>
              Grouped(objects, prefix, "")[k] == ObjectEntry(Describe(k, objects[k]))
  {
    if k in objects && prefix <= k {
      assert GroupKey(prefix, "", k) == k;
      assert k in GroupKeys(objects.Keys, prefix, "");
    }
    if k in Grouped(objects, prefix, "") {
      GroupKeysProperty(objects.Keys, prefix, "", k);
    }
  }

  lemma GroupKeysUnion(a: set<string>, b: set<string>, prefix: string, delimiter: string)
    ensures GroupKeys(a + b, prefix, delimiter) == GroupKeys(a, prefix, delimiter) + GroupKeys(b, prefix, delimiter)
  {
    forall g | g in GroupKeys(a, prefix, delimiter) + GroupKeys(b, prefix, delimiter)
      ensures g in GroupKeys(a + b, prefix, delimiter)
    {
      var k :| k in a + b && prefix <= k && GroupKey(prefix, delimiter, k) == g;
    }
  }

  /** An object below the prefix that is no group keeps its own entry. */
  lemma GroupedObject(objects: map<string, Object>, prefix: string, delimiter: string, g: string)
    requires prefix <= g && !IsGroup(prefix, delimiter, g)
    ensures g in Grouped(objects, prefix, delimiter) <==> g in objects
  {
    if g in objects {
      assert GroupKey(prefix, delimiter, g) == g;
    }
    if g in Grouped(objects, prefix, delimiter) {
      GroupKeysProperty(objects.Keys, prefix, delimiter, g);
    }
  }

  /**
   Grouping commutes with shadowing: grouping the override of two maps is overriding the
   grouping of one by the grouping of the other.
   */
  lemma GroupedOverride(base: map<string, Object>, over: map<string, Object>, prefix: string, delimiter: string)
    ensures Grouped(base + over, prefix, delimiter)
         == Grouped(base, prefix, delimiter) + Grouped(over, prefix, delimiter)
  {
    var all := Grouped(base + over, prefix, delimiter);
    var b, o := Grouped(base, prefix, delimiter), Grouped(over, prefix, delimiter);
    assert (base + over).Keys == base.Keys + over.Keys;
    GroupKeysUnion(base.Keys, over.Keys, prefix, delimiter);
    assert all.Keys == (b + o).Keys;
    forall g | g in all ensures all[g] == (b + o)[g] {
      if !IsGroup(prefix, delimiter, g) {
        GroupedObject(base + over, prefix, delimiter, g);
        GroupedObject(base, prefix, delimiter, g);
        GroupedObject(over, prefix, delimiter, g);
      }
    }
  }

  // ---------------------------------------------------------------- ordered lists

  predicate Keyed(g: map<string, Entry>) {
    forall k :: k in g ==> g[k].Key() == k
  }

  predicate Ordered(s: seq<Entry>) {
    forall i, j :: 0 <= i < j < |s| ==> Less(s[i].Key(), s[j].Key())
  }

  /** The entries under some keys. */
  function Select(g: map<string, Entry>, keys: seq<string>): (s: seq<Entry>)
    requires forall k :: k in keys ==> k in g
    ensures |s| == |keys|
    ensures forall i :: 0 <= i < |s| ==> keys[i] in g && s[i] == g[keys[i]]
  {
    seq(|keys|, i requires 0 <= i < |keys| => assert keys[i] in keys; g[keys[i]])
  }

  lemma SelectContents(g: map<string, Entry>, keys: seq<string>)
    requires Keyed(g) && Ascending(keys) && forall k :: k in keys <==> k in g
    ensures Ordered(Select(g, keys))
    ensures forall e :: e in Select(g, keys) <==> e.Key() in g && g[e.Key()] == e
  {
    hide Less;
    var s := Select(g, keys);
    forall e: Entry | e.Key() in g && g[e.Key()] == e ensures e in s {
      var i :| 0 <= i < |keys| && keys[i] == e.Key();
      assert s[i] == e;
    }
  }

  /** The entries of a map in key order. */
  function List(g: map<string, Entry>): (s: seq<Entry>)
    requires Keyed(g)
    ensures Ordered(s)
    ensures forall e :: e in s <==> e.Key() in g && g[e.Key()] == e
  {
    SelectContents(g, Sorted(g.Keys));
    Select(g, Sorted(g.Keys))
  }

  function Keys(s: seq<Entry>): (r: seq<string>)
    ensures |r| == |s|
    ensures forall i :: 0 <= i < |s| ==> r[i] == s[i].Key()
  {
    seq(|s|, i requires 0 <= i < |s| => s[i].Key())
  }

  lemma SameKeySameEntry(s: seq<Entry>, a: Entry, b: Entry)
    requires Ordered(s) && a in s && b in s && a.Key() == b.Key()
    ensures a == b
  {
    var i :| 0 <= i < |s| && s[i] == a;
    var j :| 0 <= j < |s| && s[j] == b;
    LessIrreflexive(a.Key());
  }

  /** An ordered list is determined by its elements. */
  lemma OrderedUnique(a: seq<Entry>, b: seq<Entry>)
    requires Ordered(a) && Ordered(b)
    requires forall e :: e in a <==> e in b
    ensures a == b
  {
    forall k ensures k in Keys(a) <==> k in Keys(b) {
      if k in Keys(a) {
        var i :| 0 <= i < |a| && a[i].Key() == k;
        assert a[i] in b;
        var j :| 0 <= j < |b| && b[j] == a[i];
        assert Keys(b)[j] == k;
      }
      if k in Keys(b) {
        var i :| 0 <= i < |b| && b[i].Key() == k;
        assert b[i] in a;
        var j :| 0 <= j < |a| && a[j] == b[i];
        assert Keys(a)[j] == k;
      }
    }
    AscendingUnique(Keys(a), Keys(b));
    forall i | 0 <= i < |a| ensures a[i] == b[i] {
      assert Keys(a)[i] == Keys(b)[i];
      assert b[i] in a;
      SameKeySameEntry(a, a[i], b[i]);
    }
  }

  lemma OrderedSlices(s: seq<Entry>, i: nat)
    requires Ordered(s) && i <= |s|
    ensures Ordered(s[..i]) && Ordered(s[i..])
  {
  }

  // ---------------------------------------------------------------- splitting a page

  function Objects(s: seq<Entry>): seq<ObjectMeta> {
    if s == [] then []
    else if s[0].ObjectEntry? then [s[0].meta] + Objects(s[1..])
    else Objects(s[1..])
  }

  function Prefixes(s: seq<Entry>): seq<string> {
    if s == [] then []
    else if s[0].PrefixEntry? then [s[0].prefix] + Prefixes(s[1..])
    else Prefixes(s[1..])
  }

  lemma {:induction false} SplitConcat(a: seq<Entry>, b: seq<Entry>)
    ensures Objects(a + b) == Objects(a) + Objects(b)
    ensures Prefixes(a + b) == Prefixes(a) + Prefixes(b)
  {
    if a == [] {
      assert a + b == b;
    } else {
      assert (a + b)[1..] == a[1..] + b;
      SplitConcat(a[1..], b);
    }
  }

  lemma {:induction false} SplitLength(s: seq<Entry>)
    ensures |Objects(s)| + |Prefixes(s)| == |s|
  {
    if s != [] {
      SplitLength(s[1..]);
    }
  }

  /** Two lists of objects and common prefixes merged by key, objects first on ties. */
  function MergedPage(objects: seq<ObjectMeta>, prefixes: seq<string>): seq<Entry> {
    if objects == [] && prefixes == [] then []
    else if prefixes == []
        || (objects != [] && (objects[0].key == prefixes[0] || Less(objects[0].key, prefixes[0]))) then
      [ObjectEntry(objects[0])] + MergedPage(objects[1..], prefixes)
    else
      [PrefixEntry(prefixes[0])] + MergedPage(objects, prefixes[1..])
  }

  lemma {:induction false} SplitContents(s: seq<Entry>)
    ensures forall m :: m in Objects(s) <==> ObjectEntry(m) in s
    ensures forall p :: p in Prefixes(s) <==> PrefixEntry(p) in s
  {
    if s != [] {
      SplitContents(s[1..]);
      assert s == [s[0]] + s[1..];
    }
  }

  lemma HeadBelowSplit(s: seq<Entry>)
    requires Ordered(s) && s != []
    ensures forall m :: m in Objects(s[1..]) ==>
              Less(s[0].Key(), m.key) && !Less(m.key, s[0].Key()) && m.key != s[0].Key()
    ensures forall p :: p in Prefixes(s[1..]) ==> Less(s[0].Key(), p) && !Less(p, s[0].Key()) && p != s[0].Key()
  {
    SplitContents(s[1..]);
    forall e | e in s[1..] ensures Less(s[0].Key(), e.Key()) && !Less(e.Key(), s[0].Key()) && e.Key() != s[0].Key() {
      var j :| 0 <= j < |s[1..]| && s[1..][j] == e;
      assert s[j + 1] == e;
      LessAsymmetric(s[0].Key(), e.Key());
    }
    forall m | m in Objects(s[1..]) ensures Less(s[0].Key(), m.key) && !Less(m.key, s[0].Key()) && m.key != s[0].Key() {
      assert ObjectEntry(m).Key() == m.key;
    }
    forall p | p in Prefixes(s[1..]) ensures Less(s[0].Key(), p) && !Less(p, s[0].Key()) && p != s[0].Key() {
      assert PrefixEntry(p).Key() == p;
    }
  }

  /** Merging the two halves of an ordered list restores the list. */
  lemma {:induction false} MergedPageRestores(s: seq<Entry>)
    requires Ordered(s)
    ensures MergedPage(Objects(s), Prefixes(s)) == s
  {
    if s != [] {
      var os, ps := Objects(s[1..]), Prefixes(s[1..]);
      MergedPageRestores(s[1..]);
      HeadBelowSplit(s);
      assert s == [s[0]] + s[1..];
      if s[0].ObjectEntry? {
        assert Objects(s)[1..] == os && Objects(s)[0] == s[0].meta && Prefixes(s) == ps;
        assert ps != [] ==> ps[0] in ps;
      } else {
        assert Prefixes(s)[1..] == ps && Prefixes(s)[0] == s[0].prefix && Objects(s) == os;
        assert os != [] ==> os[0] in os;
      }
    }
  }

  /** Merging loses, invents and reorders nothing on either side, ordered or not. */
  lemma {:induction false} SplitMergedPage(objects: seq<ObjectMeta>, prefixes: seq<string>)
    ensures Objects(MergedPage(objects, prefixes)) == objects
    ensures Prefixes(MergedPage(objects, prefixes)) == prefixes
    decreases |objects| + |prefixes|
  {
    if prefixes == [] && objects == [] {
    } else if prefixes == []
        || (objects != [] && (objects[0].key == prefixes[0] || Less(objects[0].key, prefixes[0]))) {
      SplitMergedPage(objects[1..], prefixes);
      assert objects == [objects[0]] + objects[1..];
    } else {
      SplitMergedPage(objects, prefixes[1..]);
      assert prefixes == [prefixes[0]] + prefixes[1..];
    }
  }

  // ---------------------------------------------------------------- merging two listings

  /** One step of the two-way merge: the entry it emits and what remains of both lists. */
  datatype Pick = Pick(entry: Entry, overlay: seq<Entry>, baseline: seq<Entry>)

  /** The smaller head wins; on equal keys the overlay's entry, and both lists advance. */
  function Next(o: seq<Entry>, b: seq<Entry>): Pick
    requires o != [] || b != []
  {
    if b == [] then Pick(o[0], o[1..], b)
    else if o == [] then Pick(b[0], o, b[1..])
    else if o[0].Key() == b[0].Key() then Pick(o[0], o[1..], b[1..])
    else if Less(o[0].Key(), b[0].Key()) then Pick(o[0], o[1..], b)
    else Pick(b[0], o, b[1..])
  }

  /** The whole two-way merge. */
  function Merge(o: seq<Entry>, b: seq<Entry>): seq<Entry>
    decreases |o| + |b|
  {
    if o == [] && b == [] then []
    else
      var pick := Next(o, b);
      [pick.entry] + Merge(pick.overlay, pick.baseline)
  }

  ghost predicate HasKey(s: seq<Entry>, k: string) {
    exists e :: e in s && e.Key() == k
  }

  lemma HeadIsLeast(s: seq<Entry>, e: Entry)
    requires Ordered(s) && e in s
    ensures e == s[0] || Less(s[0].Key(), e.Key())
  {
    var i :| 0 <= i < |s| && s[i] == e;
  }

  /** Everything that remains after a step lies above the entry emitted. */
  lemma NextIsLeast(o: seq<Entry>, b: seq<Entry>, e: Entry)
    requires Ordered(o) && Ordered(b) && (o != [] || b != [])
    requires e in Next(o, b).overlay || e in Next(o, b).baseline
    ensures Less(Next(o, b).entry.Key(), e.Key())
  {
    var pick := Next(o, b);
    if e in pick.overlay {
      AboveHead(o, b, e);
    } else {
      AboveHead(b, o, e);
    }
  }

  lemma AboveHead(s: seq<Entry>, t: seq<Entry>, e: Entry)
    requires Ordered(s) && Ordered(t) && (s != [] || t != [])
    requires e in Next(s, t).overlay || e in Next(t, s).baseline
    ensures Less(Next(s, t).entry.Key(), e.Key()) && Less(Next(t, s).entry.Key(), e.Key())
  {
    var i :| 0 <= i < |s| && s[i] == e;
    if t != [] {
      LessTotal(s[0].Key(), t[0].Key());
      if Less(s[0].Key(), t[0].Key()) {
        LessAsymmetric(s[0].Key(), t[0].Key());
      }
      if Less(t[0].Key(), s[0].Key()) {
        LessAsymmetric(t[0].Key(), s[0].Key());
        if i > 0 {
          LessTransitive(t[0].Key(), s[0].Key(), e.Key());
        }
      }
    }
  }

  lemma {:induction false} MergeContents(o: seq<Entry>, b: seq<Entry>, e: Entry)
    requires Ordered(o) && Ordered(b)
    ensures e in Merge(o, b) <==> e in o || (e in b && !HasKey(o, e.Key()))
    decreases |o| + |b|
  {
    if o != [] || b != [] {
      var pick := Next(o, b);
      MergeContents(pick.overlay, pick.baseline, e);
      MergeStepContents(o, b, e);
    }
  }

  lemma HeadOrTail(s: seq<Entry>, e: Entry)
    requires s != []
    ensures e in s <==> e == s[0] || e in s[1..]
    ensures HasKey(s, e.Key()) <==> e.Key() == s[0].Key() || HasKey(s[1..], e.Key())
  {
    assert s == [s[0]] + s[1..];
    assert s[0] in s;
  }

  lemma MergeStepContents(o: seq<Entry>, b: seq<Entry>, e: Entry)
    requires Ordered(o) && Ordered(b) && (o != [] || b != [])
    ensures var pick := Next(o, b);
            (e in o || (e in b && !HasKey(o, e.Key())))
            <==> (e == pick.entry || e in pick.overlay || (e in pick.baseline && !HasKey(pick.overlay, e.Key())))
  {
    var pick := Next(o, b);
    forall x | x in pick.overlay || x in pick.baseline ensures x.Key() != pick.entry.Key() {
      NextIsLeast(o, b, x);
      LessIrreflexive(x.Key());
    }
    if o != [] {
      HeadOrTail(o, e);
    }
    if b != [] {
      HeadOrTail(b, e);
    }
    assert HasKey(pick.overlay, e.Key()) ==> e.Key() != pick.entry.Key();
    hide Less, Ordered, HasKey;
  }

  lemma {:induction false} MergeOrdered(o: seq<Entry>, b: seq<Entry>)
    requires Ordered(o) && Ordered(b)
    ensures Ordered(Merge(o, b))
    decreases |o| + |b|
  {
    if o != [] || b != [] {
      var pick := Next(o, b);
      MergeOrdered(pick.overlay, pick.baseline);
      var rest := Merge(pick.overlay, pick.baseline);
      forall j | 0 <= j < |rest| ensures Less(pick.entry.Key(), rest[j].Key()) {
        MergeContents(pick.overlay, pick.baseline, rest[j]);
        NextIsLeast(o, b, rest[j]);
      }
    }
  }

  /** Merging the listings of two maps is listing the override of one by the other. */
  lemma MergeIsOverride(o: map<string, Entry>, b: map<string, Entry>)
    requires Keyed(o) && Keyed(b)
    ensures Keyed(b + o)
    ensures Merge(List(o), List(b)) == List(b + o)
  {
    MergeOrdered(List(o), List(b));
    forall e ensures e in Merge(List(o), List(b)) <==> e in List(b + o) {
      MergeContents(List(o), List(b), e);
      if e.Key() in o {
        assert o[e.Key()] in List(o);
      }
    }
    OrderedUnique(Merge(List(o), List(b)), List(b + o));
  }

  /** The listing of a bucket. */
  function BucketListing(objects: map<string, Object>, prefix: string, delimiter: string): (s: seq<Entry>)
    ensures Ordered(s)
  {
    List(Grouped(objects, prefix, delimiter))
  }

  lemma EmptyListing(prefix: string, delimiter: string)
    ensures BucketListing(map[], prefix, delimiter) == []
  {
    var s := BucketListing(map[], prefix, delimiter);
    assert forall e :: e in s ==> e.Key() in Grouped(map[], prefix, delimiter);
    assert forall i :: 0 <= i < |s| ==> s[i] in s;
  }

  /**
   The one-line specification of the merged view: merging the listings of an overlay and a
   baseline bucket yields the listing of the baseline overridden by the overlay.
   */
  lemma MergedListing(base: map<string, Object>, over: map<string, Object>, prefix: string, delimiter: string)
    ensures Merge(BucketListing(over, prefix, delimiter), BucketListing(base, prefix, delimiter))
         == BucketListing(base + over, prefix, delimiter)
  {
    GroupedOverride(base, over, prefix, delimiter);
    MergeIsOverride(Grouped(over, prefix, delimiter), Grouped(base, prefix, delimiter));
  }

  /** Stacking overlays is associative: three ordered listings merge the same either way. */
  lemma {:induction false} MergeAssociative(a: seq<Entry>, b: seq<Entry>, c: seq<Entry>)
    requires Ordered(a) && Ordered(b) && Ordered(c)
    ensures Merge(a, Merge(b, c)) == Merge(Merge(a, b), c)
  {
    MergeOrdered(a, b);
    MergeOrdered(b, c);
    MergeOrdered(a, Merge(b, c));
    MergeOrdered(Merge(a, b), c);
    forall e ensures e in Merge(a, Merge(b, c)) <==> e in Merge(Merge(a, b), c) {
      MergeContents(a, Merge(b, c), e);
      MergeContents(b, c, e);
      MergeContents(Merge(a, b), c, e);
      MergeContents(a, b, e);
      MergeKeys(a, b, e.Key());
    }
    OrderedUnique(Merge(a, Merge(b, c)), Merge(Merge(a, b), c));
  }

  lemma KeyOfHeadOrTail(s: seq<Entry>, k: string)
    requires s != []
    ensures HasKey(s, k) <==> k == s[0].Key() || HasKey(s[1..], k)
  {
    assert s == [s[0]] + s[1..];
    assert s[0] in s;
  }

  /** The keys of a merge are those of both lists, whether or not these are ordered. */
  lemma {:induction false} MergeKeys(a: seq<Entry>, b: seq<Entry>, k: string)
    ensures HasKey(Merge(a, b), k) <==> HasKey(a, k) || HasKey(b, k)
    decreases |a| + |b|
  {
    if a != [] || b != [] {
      var pick := Next(a, b);
      MergeKeys(pick.overlay, pick.baseline, k);
      KeyOfHeadOrTail([pick.entry] + Merge(pick.overlay, pick.baseline), k);
      if a != [] {
        KeyOfHeadOrTail(a, k);
      }
      if b != [] {
        KeyOfHeadOrTail(b, k);
      }
      hide HasKey, Less;
    }
  }

  // ---------------------------------------------------------------- resuming a listing

  /** The entries of an ordered list whose keys lie above a key; all but one named "" if it is "". */
  function After(s: seq<Entry>, cut: string): (r: seq<Entry>)
    ensures |r| <= |s| && r == s[|s| - |r|..]
  {
    if s == [] then []
    else if Less(cut, s[0].Key()) then s
    else After(s[1..], cut)
  }

  lemma {:induction false} AfterContents(s: seq<Entry>, cut: string, e: Entry)
    requires Ordered(s)
    ensures e in After(s, cut) <==> e in s && Less(cut, e.Key())
  {
    if s != [] {
      if Less(cut, s[0].Key()) {
        if e in s {
          HeadIsLeast(s, e);
          if e != s[0] {
            LessTransitive(cut, s[0].Key(), e.Key());
          }
        }
      } else {
        AfterContents(s[1..], cut, e);
        assert s == [s[0]] + s[1..];
      }
    }
  }

  /** What is left of a listing that resumes after a key, or starts. */
  function RestAfter(raw: seq<Entry>, at: Option<string>): (r: seq<Entry>)
    ensures Ordered(raw) ==> Ordered(r)
  {
    match at
    case None => raw
    case Some(cut) => After(raw, cut)
  }

  /** What is left of a listing at a token; the empty one stands for the start. */
  function RestAt(raw: seq<Entry>, tokens: map<string, string>, token: string): (r: seq<Entry>)
    requires token == "" || token in tokens
    ensures Ordered(raw) ==> Ordered(r)
  {
    RestAfter(raw, if token == "" then None else Some(tokens[token]))
  }

  /** Resuming behind the last of some entries resumes behind all of them. */
  lemma AfterLast(s: seq<Entry>, cut: string, n: nat)
    requires Ordered(s) && 0 < n <= |After(s, cut)|
    ensures After(s, After(s, cut)[n - 1].Key()) == After(s, cut)[n..]
  {
    hide Less, After, Ordered;
    var i := |s| - |After(s, cut)|;
    var last := i + n - 1;
    assert After(s, cut)[n - 1] == s[last];
    AfterElement(s, last);
    assert After(s, cut)[n..] == s[last + 1..];
  }

  lemma {:induction false} AfterElement(s: seq<Entry>, i: nat)
    requires Ordered(s) && i < |s|
    ensures After(s, s[i].Key()) == s[i + 1..]
  {
    if i == 0 {
      LessIrreflexive(s[0].Key());
      if |s| > 1 {
        assert Less(s[0].Key(), s[1].Key());
      }
    } else {
      LessAsymmetric(s[0].Key(), s[i].Key());
      assert s[1..][i - 1] == s[i];
      AfterElement(s[1..], i - 1);
    }
  }
}
