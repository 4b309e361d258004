/**
 The overlay key mapping: every client bucket is a range of keys `prefix/bucket/` inside one
 physical bucket. The same functions serve the baseline, where the mapping is the identity.
 */
module KeyMapping {
  import opened Order
  import opened Results
  import opened Text
  import opened Listing

  /** The mapping configuration of a store; an empty physical bucket selects baseline mode. */
  datatype Mapping = Mapping(bucket: string, prefix: string)

  const IDENTITY := Mapping("", "")

  /** What path parsing guarantees of a bucket name. */
  predicate IsBucketName(bucket: string) {
    bucket != "" && '/' !in bucket
  }

  function TrimSlashes(s: string): (r: string)
    ensures r <= s && (r == "" || r[|r| - 1] != '/')
    ensures forall i :: |r| <= i < |s| ==> s[i] == '/'
  {
    if s != "" && s[|s| - 1] == '/' then TrimSlashes(s[..|s| - 1]) else s
  }

  /** The mapping of an overlay store; the configured prefix loses its trailing slashes. */
  function NewMapping(bucket: string, prefix: string): Mapping {
    Mapping(bucket, TrimSlashes(prefix))
  }

  /** Slashes at the end of the configured prefix make no difference, and no others are taken off. */
  lemma PrefixSlashesAreIgnored(bucket: string, prefix: string)
    ensures NewMapping(bucket, prefix + "/") == NewMapping(bucket, prefix)
    ensures prefix == "" || prefix[|prefix| - 1] != '/' ==> NewMapping(bucket, prefix) == Mapping(bucket, prefix)
  {
    assert (prefix + "/")[..|prefix|] == prefix;
  }

  /** strings.Join(parts, "/"). */
  function JoinSlash(parts: seq<string>): string {
    if parts == [] then ""
    else if |parts| == 1 then parts[0]
    else parts[0] + "/" + JoinSlash(parts[1..])
  }

  function NonEmpty(parts: seq<string>): seq<string> {
    if parts == [] then []
    else NonEmpty(parts[..|parts| - 1]) + if parts[|parts| - 1] != "" then [parts[|parts| - 1]] else []
  }

  function JoinKey(parts: seq<string>): string {
    JoinSlash(NonEmpty(parts))
  }

  method JoinKeyLoop(parts: seq<string>) returns (key: string)
    ensures key == JoinKey(parts)
  {
    var kept := [];
    var i := 0;
    while i < |parts|
      invariant 0 <= i <= |parts|
      invariant kept == NonEmpty(parts[..i])
    {
      assert parts[..i + 1][..i] == parts[..i];
      if parts[i] != "" {
        kept := kept + [parts[i]];
      }
      i := i + 1;
    }
    assert parts[..i] == parts;
    key := JoinSlash(kept);
  }

  function MapKey(m: Mapping, bucket: string, key: string): (string, string) {
    if m.bucket == "" then (bucket, key) else (m.bucket, JoinKey([m.prefix, bucket, key]))
  }

  function ListPrefix(m: Mapping, bucket: string): string {
    if m.bucket == "" then "" else JoinKey([m.prefix, bucket]) + "/"
  }

  function BackendPrefix(m: Mapping, bucket: string, clientPrefix: string): string {
    ListPrefix(m, bucket) + clientPrefix
  }

  /** The client bucket and key of a physical key, if it lies below the mapping root. */
  function UnmapKey(m: Mapping, key: string): Option<(string, string)> {
    if m.bucket == "" then Some(("", key))
    else if m.prefix != "" && !(m.prefix + "/" <= key) then None
    else
      var rest := if m.prefix == "" then key else key[|m.prefix| + 1..];
      match Find(rest, "/")
      case None => if rest == "" then None else Some((rest, ""))
      case Some(i) =>
        if i == 0 || i == |rest| - 1 then None else Some((rest[..i], rest[i + 1..]))
  }

  /** The client key of a physical key, as seen from one client bucket. */
  function Unmap(m: Mapping, bucket: string, key: string): Option<string> {
    if m.bucket == "" then (if key != "" then Some(key) else None)
    else
      match UnmapKey(m, key)
      case None => None
      case Some((owner, name)) => if owner != bucket || name == "" then None else Some(name)
  }

  // ---------------------------------------------------------------- inverses

  lemma JoinKeyOfTwo(a: string, b: string)
    requires b != ""
    ensures JoinKey([a, b]) == if a == "" then b else a + "/" + b
  {
    assert [a, b][..1] == [a] && [a][..0] == [];
    assert NonEmpty([a]) == if a == "" then [] else [a];
    assert NonEmpty([a, b]) == if a == "" then [b] else [a, b];
    assert [a, b][1..] == [b];
    assert JoinSlash([b]) == b;
    assert JoinSlash([a, b]) == a + "/" + JoinSlash([b]);
  }

  lemma JoinKeyOfThree(a: string, b: string, c: string)
    requires b != ""
    ensures JoinKey([a, b, c]) == JoinKey([a, b]) + if c == "" then "" else "/" + c
  {
    JoinKeyOfTwo(a, b);
    assert [a, b, c][..2] == [a, b] && [a, b][..1] == [a] && [a][..0] == [];
    assert NonEmpty([a]) == if a == "" then [] else [a];
    assert NonEmpty([a, b]) == if a == "" then [b] else [a, b];
    assert NonEmpty([a, b, c]) == NonEmpty([a, b]) + if c == "" then [] else [c];
    if c != "" {
      JoinSlashAppend(NonEmpty([a, b]), c);
      assert JoinSlash(NonEmpty([a, b])) + "/" + c == JoinSlash(NonEmpty([a, b])) + ("/" + c);
    } else {
      assert NonEmpty([a, b]) + [] == NonEmpty([a, b]);
    }
  }

  lemma {:induction false} JoinSlashAppend(parts: seq<string>, last: string)
    requires parts != []
    ensures JoinSlash(parts + [last]) == JoinSlash(parts) + "/" + last
  {
    var all := parts + [last];
    assert all[1..] == parts[1..] + [last];
    if |parts| == 1 {
      assert all[1..] == [last];
    } else {
      JoinSlashAppend(parts[1..], last);
    }
  }

  /** Where a client key is stored, spelled out: prefix, bucket and key behind one another, with slashes in between. */
  lemma PhysicalKeyIs(m: Mapping, bucket: string, key: string)
    requires IsBucketName(bucket) && key != ""
    ensures MapKey(m, bucket, key)
         == if m.bucket == "" then (bucket, key)
            else if m.prefix == "" then (m.bucket, bucket + "/" + key)
            else (m.bucket, m.prefix + "/" + bucket + "/" + key)
    ensures m.bucket != "" ==>
              BackendPrefix(m, bucket, key) == (if m.prefix == "" then "" else m.prefix + "/") + bucket + "/" + key
  {
    JoinKeyOfThree(m.prefix, bucket, key);
    JoinKeyOfTwo(m.prefix, bucket);
    ConcatAssociative(JoinKey([m.prefix, bucket]), "/", key);
  }

  /** A client key lives at the list prefix of its bucket followed by the key itself. */
  lemma MapKeyIsPrefixed(m: Mapping, bucket: string, key: string)
    requires IsBucketName(bucket) && key != ""
    ensures MapKey(m, bucket, key).1 == ListPrefix(m, bucket) + key
  {
    if m.bucket != "" {
      JoinKeyOfThree(m.prefix, bucket, key);
      assert JoinKey([m.prefix, bucket]) + ("/" + key) == JoinKey([m.prefix, bucket]) + "/" + key;
    }
  }

  /** Where the client buckets live. */
  function Root(m: Mapping): string {
    if m.prefix == "" then "" else m.prefix + "/"
  }

  lemma ListPrefixBelowRoot(m: Mapping, bucket: string)
    requires m.bucket != "" && bucket != ""
    ensures ListPrefix(m, bucket) == Root(m) + (bucket + "/")
  {
    JoinKeyOfTwo(m.prefix, bucket);
  }

  lemma UnmapOfImage(m: Mapping, bucket: string, key: string)
    requires m.bucket != "" && IsBucketName(bucket) && key != ""
    ensures Unmap(m, bucket, ListPrefix(m, bucket) + key) == Some(key)
  {
    var physical := ListPrefix(m, bucket) + key;
    var rest := bucket + "/" + key;
    ListPrefixBelowRoot(m, bucket);
    assert physical == Root(m) + rest;
    assert physical[|Root(m)|..] == rest;
    FindChar(bucket, '/', key);
    assert rest[..|bucket|] == bucket && rest[|bucket| + 1..] == key;
  }

  lemma UnmapKeyShape(m: Mapping, physical: string)
    requires m.bucket != "" && UnmapKey(m, physical).Some?
    ensures var (bucket, key) := UnmapKey(m, physical).value;
            '/' !in bucket && bucket != "" && (key != "" ==> physical == Root(m) + (bucket + "/" + key))
  {
    assert Root(m) <= physical;
    var rest := physical[|Root(m)|..];
    assert physical == Root(m) + rest;
    if Find(rest, "/").Some? {
      FindCharSplits(rest, '/');
    } else {
      FindCharNone(rest, '/');
    }
  }

  lemma ImageOfUnmap(m: Mapping, bucket: string, physical: string)
    requires m.bucket != "" && IsBucketName(bucket) && Unmap(m, bucket, physical).Some?
    ensures var key := Unmap(m, bucket, physical).value; key != "" && physical == ListPrefix(m, bucket) + key
  {
    var key := Unmap(m, bucket, physical).value;
    assert UnmapKey(m, physical) == Some((bucket, key));
    hide UnmapKey, Unmap, Root, ListPrefix;
    UnmapKeyShape(m, physical);
    ListPrefixBelowRoot(m, bucket);
    ConcatAssociative(Root(m), bucket + "/", key);
  }

  /**
   Unmapping inverts mapping exactly: a physical key unmaps to a client key of the bucket if
   and only if it is the image of that key. Markers, keys of other buckets and foreign keys
   have no client key.
   */
  lemma UnmapInverts(m: Mapping, bucket: string, physical: string, key: string)
    requires IsBucketName(bucket)
    ensures Unmap(m, bucket, physical) == Some(key) <==> key != "" && physical == ListPrefix(m, bucket) + key
  {
    if m.bucket == "" {
      assert "" + key == key;
    } else {
      if Unmap(m, bucket, physical).Some? {
        ImageOfUnmap(m, bucket, physical);
      }
      if key != "" && physical == ListPrefix(m, bucket) + key {
        UnmapOfImage(m, bucket, key);
      }
    }
  }

  /** Distinct client keys never share a physical key. */
  lemma MapKeyInjective(m: Mapping, b1: string, k1: string, b2: string, k2: string)
    requires IsBucketName(b1) && IsBucketName(b2) && k1 != "" && k2 != ""
    requires MapKey(m, b1, k1) == MapKey(m, b2, k2)
    ensures b1 == b2 && k1 == k2
  {
    assert m.bucket == "" ==> b1 == b2;
    hide MapKey, ListPrefix;
    MapKeyIsPrefixed(m, b1, k1);
    MapKeyIsPrefixed(m, b2, k2);
    var physical := ListPrefix(m, b1) + k1;
    UnmapInverts(m, b1, physical, k1);
    UnmapInverts(m, b2, physical, k2);
  }

  /** A directory marker is nobody's object. */
  lemma MarkerIsHidden(m: Mapping, bucket: string, other: string, key: string)
    requires m.bucket != "" && IsBucketName(bucket) && IsBucketName(other) && key != ""
    ensures ListPrefix(m, bucket) != ListPrefix(m, other) + key
  {
    ListPrefixBelowRoot(m, bucket);
    FindChar(bucket, '/', "");
    assert bucket + "/" + "" == bucket + "/";
    assert ListPrefix(m, bucket)[|Root(m)|..] == bucket + "/";
    assert UnmapKey(m, ListPrefix(m, bucket)).None?;
    UnmapInverts(m, other, ListPrefix(m, bucket), key);
  }

  // ---------------------------------------------------------------- transparency of listings

  /** The objects of one client bucket, given what the physical bucket stores. */
  function ClientObjects(m: Mapping, stored: map<string, Object>, bucket: string): (c: map<string, Object>)
    ensures forall k :: k in c <==> k != "" && ListPrefix(m, bucket) + k in stored
    ensures forall k :: k in c ==> c[k] == stored[ListPrefix(m, bucket) + k]
  {
    var root := ListPrefix(m, bucket);
    var keys := set p | p in stored && root < p :: p[|root|..];
    assert forall k :: k in keys ==> root + k in stored by {
      forall k | k in keys ensures root + k in stored {
        var p :| p in stored && root < p && p[|root|..] == k;
        assert root + k == p;
      }
    }
    assert forall k :: k != "" && root + k in stored ==> k in keys by {
      forall k | k != "" && root + k in stored ensures k in keys {
        assert root < root + k && (root + k)[|root|..] == k;
      }
    }
    map k | k in keys :: stored[root + k]
  }

  /** Which client keys are stored at the place of a given one. */
  lemma SamePlace(m: Mapping, bucket: string, key: string, b: string, k: string)
    requires IsBucketName(bucket) && IsBucketName(b) && key != "" && k != "" && (m.bucket != "" || b == bucket)
    ensures ListPrefix(m, b) + k == MapKey(m, bucket, key).1 <==> b == bucket && k == key
  {
    assert MapKey(m, bucket, key).0 == MapKey(m, b, k).0;
    hide ListPrefix, MapKey;
    MapKeyIsPrefixed(m, b, k);
    if ListPrefix(m, b) + k == MapKey(m, bucket, key).1 {
      MapKeyInjective(m, bucket, key, b, k);
    }
  }

  /** Storing under a client key changes that key of that bucket and nothing else. */
  lemma WriteIsLocal(m: Mapping, stored: map<string, Object>, bucket: string, key: string, o: Object, b: string)
    requires IsBucketName(bucket) && IsBucketName(b) && key != ""
    ensures var after := stored[MapKey(m, bucket, key).1 := o];
            && (b == bucket ==> ClientObjects(m, after, b) == ClientObjects(m, stored, b)[key := o])
            && (b != bucket && m.bucket != "" ==> ClientObjects(m, after, b) == ClientObjects(m, stored, b))
  {
    hide MapKey, ListPrefix, ClientObjects;
    if m.bucket != "" || b == bucket {
      forall k | k != "" ensures ListPrefix(m, b) + k == MapKey(m, bucket, key).1 <==> b == bucket && k == key {
        SamePlace(m, bucket, key, b, k);
      }
      var after := stored[MapKey(m, bucket, key).1 := o];
      if b == bucket {
        assert ClientObjects(m, after, b) == ClientObjects(m, stored, b)[key := o];
      } else {
        assert ClientObjects(m, after, b) == ClientObjects(m, stored, b);
      }
    }
  }

  /** A directory marker changes no client bucket. */
  lemma MarkerWriteIsHidden(m: Mapping, stored: map<string, Object>, bucket: string, o: Object, b: string)
    requires m.bucket != "" && IsBucketName(bucket) && IsBucketName(b)
    ensures ClientObjects(m, stored[ListPrefix(m, bucket) := o], b) == ClientObjects(m, stored, b)
  {
    forall k | k != "" ensures ListPrefix(m, b) + k != ListPrefix(m, bucket) {
      MarkerIsHidden(m, bucket, b, k);
    }
  }

  function UnmapEntry(m: Mapping, bucket: string, e: Entry): Option<Entry> {
    match Unmap(m, bucket, e.Key())
    case None => None
    case Some(key) =>
      match e
      case ObjectEntry(meta) => Some(ObjectEntry(meta.(key := key)))
      case PrefixEntry(_) => Some(PrefixEntry(key))
  }

  /** The entries of a physical listing that a client bucket shows. */
  function Visible(m: Mapping, bucket: string, s: seq<Entry>): seq<Entry> {
    if s == [] then []
    else
      var rest := Visible(m, bucket, s[1..]);
      match UnmapEntry(m, bucket, s[0])
      case None => rest
      case Some(e) => [e] + rest
  }

  lemma {:induction false} VisibleConcat(m: Mapping, bucket: string, a: seq<Entry>, b: seq<Entry>)
    ensures Visible(m, bucket, a + b) == Visible(m, bucket, a) + Visible(m, bucket, b)
  {
    if a == [] {
      assert a + b == b;
    } else {
      assert (a + b)[1..] == a[1..] + b;
      VisibleConcat(m, bucket, a[1..], b);
    }
  }

  /** An entry of the client bucket moved to where it is stored. */
  function Stored(m: Mapping, bucket: string, e: Entry): (r: Entry)
    ensures r.Key() == ListPrefix(m, bucket) + e.Key()
  {
    match e
    case ObjectEntry(meta) => ObjectEntry(meta.(key := ListPrefix(m, bucket) + meta.key))
    case PrefixEntry(prefix) => PrefixEntry(ListPrefix(m, bucket) + prefix)
  }

  lemma UnmapEntryInverts(m: Mapping, bucket: string, physical: Entry, e: Entry)
    requires IsBucketName(bucket)
    ensures UnmapEntry(m, bucket, physical) == Some(e) <==> e.Key() != "" && physical == Stored(m, bucket, e)
  {
    UnmapInverts(m, bucket, physical.Key(), e.Key());
  }

  lemma {:induction false} VisibleContents(m: Mapping, bucket: string, s: seq<Entry>, e: Entry)
    requires IsBucketName(bucket)
    ensures e in Visible(m, bucket, s) <==> e.Key() != "" && Stored(m, bucket, e) in s
  {
    if s != [] {
      VisibleContents(m, bucket, s[1..], e);
      UnmapEntryInverts(m, bucket, s[0], e);
      assert s == [s[0]] + s[1..];
    }
  }

  lemma {:induction false} VisibleOrdered(m: Mapping, bucket: string, s: seq<Entry>)
    requires IsBucketName(bucket) && Ordered(s)
    ensures Ordered(Visible(m, bucket, s))
  {
    if s != [] {
      VisibleOrdered(m, bucket, s[1..]);
      var head := UnmapEntry(m, bucket, s[0]);
      if head.Some? {
        var rest := Visible(m, bucket, s[1..]);
        forall j | 0 <= j < |rest| ensures Less(head.value.Key(), rest[j].Key()) {
          UnmapEntryInverts(m, bucket, s[0], head.value);
          VisibleContents(m, bucket, s[1..], rest[j]);
          var i :| 0 <= i < |s[1..]| && s[1..][i] == Stored(m, bucket, rest[j]);
          assert Less(s[0].Key(), s[i + 1].Key());
          LessBelowPrefix(ListPrefix(m, bucket), head.value.Key(), rest[j].Key());
        }
      }
    }
  }

  /** Grouping looks only at what follows the prefix, so it does not see the mapping root. */
  lemma GroupKeyBelowRoot(root: string, prefix: string, delimiter: string, key: string)
    requires prefix <= key
    ensures root + prefix <= root + key
    ensures IsGroup(root + prefix, delimiter, root + key) == IsGroup(prefix, delimiter, key)
    ensures GroupKey(root + prefix, delimiter, root + key) == root + GroupKey(prefix, delimiter, key)
  {
    assert (root + key)[|root + prefix|..] == key[|prefix|..];
    assert (root + key)[..|root + prefix|] == root + key[..|prefix|];
    if IsGroup(prefix, delimiter, key) {
      var n := |prefix| + Find(key[|prefix|..], delimiter).value + |delimiter|;
      assert (root + key)[..|root| + n] == root + key[..n];
    }
  }

  lemma GroupKeysBelowRoot(root: string, stored: set<string>, client: set<string>, prefix: string, delimiter: string,
                           g: string)
    requires forall k :: k in client <==> k != "" && root + k in stored
    ensures g != "" && root + g in GroupKeys(stored, root + prefix, delimiter)
            <==> g in GroupKeys(client, prefix, delimiter)
  {
    if g in GroupKeys(client, prefix, delimiter) {
      var k :| k in client && prefix <= k && GroupKey(prefix, delimiter, k) == g;
      GroupKeyBelowRoot(root, prefix, delimiter, k);
      assert root + k in stored;
    }
    if g != "" && root + g in GroupKeys(stored, root + prefix, delimiter) {
      var p :| p in stored && root + prefix <= p && GroupKey(root + prefix, delimiter, p) == root + g;
      var k := WithoutRoot(root, prefix, p);
      GroupKeyBelowRoot(root, prefix, delimiter, k);
      assert (root + GroupKey(prefix, delimiter, k))[|root|..] == (root + g)[|root|..];
      assert GroupKey(prefix, delimiter, k) == g;
      assert k in client;
    }
  }

  lemma WithoutRoot(root: string, prefix: string, p: string) returns (k: string)
    requires root + prefix <= p
    ensures p == root + k && prefix <= k
  {
    k := p[|root|..];
    assert p[..|root|] == (root + prefix)[..|root|];
    assert k[..|prefix|] == p[|root|..|root + prefix|] == (root + prefix)[|root|..];
  }

  lemma TransparentEntry(m: Mapping, bucket: string, stored: map<string, Object>, prefix: string, delimiter: string,
                         e: Entry)
    ensures e.Key() != "" && Stored(m, bucket, e) in BucketListing(stored, BackendPrefix(m, bucket, prefix), delimiter)
            <==> e in BucketListing(ClientObjects(m, stored, bucket), prefix, delimiter)
  {
    var g := e.Key();
    GroupKeysBelowRoot(ListPrefix(m, bucket), stored.Keys, ClientObjects(m, stored, bucket).Keys, prefix, delimiter, g);
    if g in GroupKeys(ClientObjects(m, stored, bucket).Keys, prefix, delimiter) {
      GroupKeysProperty(ClientObjects(m, stored, bucket).Keys, prefix, delimiter, g);
      GroupKeyBelowRoot(ListPrefix(m, bucket), prefix, delimiter, g);
    }
  }

  /**
   The mapping is invisible in listings: whatever else the physical bucket holds, listing it
   below the bucket's backend prefix and unmapping the result gives, in order, the listing of
   the client bucket, for every client prefix and delimiter.
   */
  lemma {:induction false} MappingIsTransparent(m: Mapping, bucket: string, stored: map<string, Object>,
                                                prefix: string, delimiter: string)
    requires IsBucketName(bucket)
    ensures Visible(m, bucket, BucketListing(stored, BackendPrefix(m, bucket, prefix), delimiter))
         == BucketListing(ClientObjects(m, stored, bucket), prefix, delimiter)
  {
    var raw := BucketListing(stored, BackendPrefix(m, bucket, prefix), delimiter);
    VisibleOrdered(m, bucket, raw);
    forall e
      ensures e in Visible(m, bucket, raw) <==> e in BucketListing(ClientObjects(m, stored, bucket), prefix, delimiter)
    {
      VisibleContents(m, bucket, raw, e);
      TransparentEntry(m, bucket, stored, prefix, delimiter, e);
    }
    OrderedUnique(Visible(m, bucket, raw), BucketListing(ClientObjects(m, stored, bucket), prefix, delimiter));
  }

  /** Resuming the physical listing of a bucket resumes the listing that the client sees. */
  lemma {:induction false} VisibleRest(m: Mapping, bucket: string, stored: map<string, Object>, prefix: string,
                                       delimiter: string, at: Option<string>, e: Entry)
    requires IsBucketName(bucket)
    ensures var raw := BucketListing(stored, BackendPrefix(m, bucket, prefix), delimiter);
            e in Visible(m, bucket, RestAfter(raw, at)) <==>
              && e in BucketListing(ClientObjects(m, stored, bucket), prefix, delimiter)
              && (at.Some? ==> Less(at.value, Stored(m, bucket, e).Key()))
  {
    var raw := BucketListing(stored, BackendPrefix(m, bucket, prefix), delimiter);
    if at.Some? {
      AfterContents(raw, at.value, Stored(m, bucket, e));
    }
    hide BucketListing, Visible, ClientObjects, BackendPrefix, ListPrefix, After;
    VisibleContents(m, bucket, RestAfter(raw, at), e);
    TransparentEntry(m, bucket, stored, prefix, delimiter, e);
  }
}
