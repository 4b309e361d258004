/**
 Listing buckets. In the overlay a client bucket is a first-level prefix below the mapping root,
 and the gateway recovers bucket names from the common prefixes of one listing.
 */
module Buckets {
  import opened Results
  import opened Text
  import opened Listing
  import opened KeyMapping

  function TrimSlash(s: string): string {
    if s != "" && s[|s| - 1] == '/' then s[..|s| - 1] else s
  }

  /** The client bucket of a first-level common prefix. */
  function UnmapPrefixRoot(m: Mapping, prefix: string): Option<string> {
    match UnmapKey(m, TrimSlash(prefix))
    case None => None
    case Some((bucket, _)) => Some(bucket)
  }

  /** The bucket names recovered from some common prefixes. */
  function NamesOf(m: Mapping, prefixes: seq<string>): set<string> {
    set p | p in prefixes && UnmapPrefixRoot(m, p).Some? :: UnmapPrefixRoot(m, p).value
  }

  lemma NamesOfConcat(m: Mapping, a: seq<string>, b: seq<string>)
    ensures NamesOf(m, a + b) == NamesOf(m, a) + NamesOf(m, b)
  {
    forall n | n in NamesOf(m, a) + NamesOf(m, b) ensures n in NamesOf(m, a + b) {
      var p :| (p in a || p in b) && UnmapPrefixRoot(m, p) == Some(n);
      assert p in a + b;
    }
  }

  /** What the gateway lists as the overlay's buckets: it lists below the prefix as configured. */
  function ListedBuckets(m: Mapping, stored: map<string, Object>): set<string> {
    NamesOf(m, Prefixes(BucketListing(stored, m.prefix, "/")))
  }

  /** The buckets that exist: those with a key, if only a marker, in their range of keys. */
  ghost predicate HasBucket(m: Mapping, stored: map<string, Object>, bucket: string) {
    IsBucketName(bucket) && exists p :: p in stored && ListPrefix(m, bucket) <= p
  }

  /** A group by slash ends at the first slash behind the prefix. */
  lemma SlashGroupShape(prefix: string, k: string)
    requires prefix <= k && IsGroup(prefix, "/", k)
    ensures var g := GroupKey(prefix, "/", k);
            prefix < g <= k && g[|g| - 1] == '/' && '/' !in g[|prefix|..|g| - 1]
  {
    var rest, g := k[|prefix|..], GroupKey(prefix, "/", k);
    FindCharSplits(rest, '/');
    assert g[|prefix|..|g| - 1] == rest[..Find(rest, "/").value];
    assert g[|g| - 1] == rest[Find(rest, "/").value];
  }

  lemma CommonPrefixShape(stored: map<string, Object>, prefix: string, p: string)
    requires p in Prefixes(BucketListing(stored, prefix, "/"))
    ensures prefix < p && p[|p| - 1] == '/' && '/' !in p[|prefix|..|p| - 1]
    ensures exists k :: k in stored && p <= k
  {
    hide IsGroup, GroupKey, BucketListing, Prefixes;
    var k := GroupMember(stored, prefix, "/", p);
    SlashGroupShape(prefix, k);
  }

  /** A listed common prefix is the group of some key. */
  lemma GroupMember(stored: map<string, Object>, prefix: string, delimiter: string, p: string) returns (k: string)
    requires p in Prefixes(BucketListing(stored, prefix, delimiter))
    ensures k in stored && prefix <= k && IsGroup(prefix, delimiter, k) && GroupKey(prefix, delimiter, k) == p
  {
    hide IsGroup, GroupKey, Prefixes;
    SplitContents(BucketListing(stored, prefix, delimiter));
    assert PrefixEntry(p).Key() == p;
    k :| k in stored && prefix <= k && GroupKey(prefix, delimiter, k) == p;
    GroupKeyIsStable(prefix, delimiter, k);
    GroupKeysProperty(stored.Keys, prefix, delimiter, p);
  }

  lemma KeyMakesCommonPrefix(stored: map<string, Object>, bucket: string, k: string)
    requires IsBucketName(bucket) && k in stored && bucket + "/" <= k
    ensures bucket + "/" in Prefixes(BucketListing(stored, "", "/"))
  {
    var p := bucket + "/";
    assert k == bucket + "/" + k[|p|..];
    FindChar(bucket, '/', k[|p|..]);
    assert k[|""|..] == k;
    assert GroupKey("", "/", k) == p;
    assert p in GroupKeys(stored.Keys, "", "/");
    GroupKeyIsStable("", "/", k);
    assert PrefixEntry(p) in BucketListing(stored, "", "/");
    SplitContents(BucketListing(stored, "", "/"));
  }

  lemma RootlessName(m: Mapping, p: string)
    requires m.bucket != "" && m.prefix == "" && p != "" && p[|p| - 1] == '/' && '/' !in p[..|p| - 1]
    ensures UnmapPrefixRoot(m, p) == if |p| == 1 then None else Some(p[..|p| - 1])
  {
    FindCharNone(p[..|p| - 1], '/');
  }

  /** Without a configured prefix exactly the existing buckets are listed. */
  lemma RootlessBucketsAreListed(m: Mapping, stored: map<string, Object>, bucket: string)
    requires m.bucket != "" && m.prefix == ""
    ensures bucket in ListedBuckets(m, stored) <==> HasBucket(m, stored, bucket)
  {
    hide BucketListing, Prefixes, UnmapPrefixRoot, ListPrefix;
    if bucket in ListedBuckets(m, stored) {
      var p :| p in Prefixes(BucketListing(stored, "", "/")) && UnmapPrefixRoot(m, p) == Some(bucket);
      CommonPrefixShape(stored, "", p);
      assert p[|""|..|p| - 1] == p[..|p| - 1];
      RootlessName(m, p);
      ListPrefixBelowRoot(m, bucket);
      assert ListPrefix(m, bucket) == p;
    }
    if HasBucket(m, stored, bucket) {
      ListPrefixBelowRoot(m, bucket);
      var k :| k in stored && ListPrefix(m, bucket) <= k;
      var p := bucket + "/";
      assert "" + p == p && p[..|p| - 1] == bucket;
      KeyMakesCommonPrefix(stored, bucket, k);
      RootlessName(m, p);
    }
  }

  /**
   With a configured prefix no overlay bucket is ever listed: the listing goes below the prefix
   without its slash, so every common prefix ends before the bucket name begins.
   */
  lemma PrefixedBucketsAreNeverListed(m: Mapping, stored: map<string, Object>)
    requires m.bucket != "" && m.prefix != ""
    ensures ListedBuckets(m, stored) == {}
  {
    forall p | p in Prefixes(BucketListing(stored, m.prefix, "/")) ensures UnmapPrefixRoot(m, p).None? {
      CommonPrefixShape(stored, m.prefix, p);
      var name := TrimSlash(p);
      assert name == p[..|p| - 1];
      if |name| > |m.prefix| {
        assert name[|m.prefix|] == p[|m.prefix|..|p| - 1][0];
      }
      assert !(m.prefix + "/" <= name);
    }
  }

  /**
   The gateway lists the buckets of the overlay correctly if and only if no key prefix is
   configured or there is no bucket to list.
   */
  lemma BucketsAreListedExactlyIf(m: Mapping, stored: map<string, Object>)
    requires m.bucket != ""
    ensures (forall b :: b in ListedBuckets(m, stored) <==> HasBucket(m, stored, b))
            <==> m.prefix == "" || forall b :: !HasBucket(m, stored, b)
  {
    if m.prefix == "" {
      forall b ensures b in ListedBuckets(m, stored) <==> HasBucket(m, stored, b) {
        RootlessBucketsAreListed(m, stored, b);
      }
    } else {
      PrefixedBucketsAreNeverListed(m, stored);
    }
  }

  /** A bucket just created through the gateway, under the prefix of the README's example, is not listed. */
  lemma CreatedBucketIsNotListed()
    ensures var m := NewMapping("overlay-data", "gateway/");
            var stored := map[ListPrefix(m, "demo") := Object("", "", 0, "")];
            HasBucket(m, stored, "demo") && "demo" !in ListedBuckets(m, stored)
  {
    var m := NewMapping("overlay-data", "gateway/");
    var stored := map[ListPrefix(m, "demo") := Object("", "", 0, "")];
    assert "gateway/"[..7] == "gateway";
    assert m.prefix != "";
    PrefixedBucketsAreNeverListed(m, stored);
    assert ListPrefix(m, "demo") in stored && ListPrefix(m, "demo") <= ListPrefix(m, "demo");
  }
}
