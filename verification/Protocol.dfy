/** Path-style addressing: which bucket and key a request path names. */
module Protocol {
  import opened Text
  import opened KeyMapping

  datatype Target = ServiceRoot | OfBucket(bucket: string) | OfObject(bucket: string, key: string)

  function SplitPath(path: string): (string, string) {
    var p := if path != "" && path[0] == '/' then path[1..] else path;
    match Find(p, "/")
    case Some(i) => (p[..i], p[i + 1..])
    case None => (p, "")
  }

  /** The routing of a request by its path: no bucket, a bucket alone, or a bucket and a key. */
  function Route(path: string): Target {
    var (bucket, key) := SplitPath(path);
    if bucket == "" then ServiceRoot else if key == "" then OfBucket(bucket) else OfObject(bucket, key)
  }

  /** Operations on objects only ever see slash-free bucket names and non-empty keys. */
  lemma RoutedNamesAreValid(path: string)
    ensures match Route(path)
            case ServiceRoot => true
            case OfBucket(bucket) => IsBucketName(bucket)
            case OfObject(bucket, key) => IsBucketName(bucket) && key != ""
  {
    var p := if path != "" && path[0] == '/' then path[1..] else path;
    FindCharNone(p, '/');
    if Find(p, "/").Some? {
      FindCharSplits(p, '/');
    }
  }

  /** A path without a key addresses a bucket, whether or not a slash follows its name. */
  lemma EveryBucketIsAddressable(bucket: string)
    requires IsBucketName(bucket)
    ensures Route("/" + bucket) == OfBucket(bucket) && Route("/" + (bucket + "/")) == OfBucket(bucket)
  {
    assert ("/" + bucket)[1..] == bucket && ("/" + (bucket + "/"))[1..] == bucket + "/";
    FindCharNone(bucket, '/');
    FindChar(bucket, '/', "");
    assert bucket + "/" + "" == bucket + "/";
    assert (bucket + "/")[..|bucket|] == bucket && (bucket + "/")[|bucket| + 1..] == "";
  }

  /** Exactly the paths that name no bucket, but for the slash in front, address the service. */
  lemma ServiceRootExactlyIf(path: string)
    ensures Route(path) == ServiceRoot <==> path == "" || path == "/" || "//" <= path
  {
    var p := if path != "" && path[0] == '/' then path[1..] else path;
    FindIsFirst(p, "/");
    if p != "" && p[0] == '/' {
      assert StandsAt(p, "/", 0);
    }
    if Find(p, "/").Some? && p[..Find(p, "/").value] == "" {
      assert p[0..1] == "/";
    }
  }

  /** Every bucket and key can be addressed, keys with leading, double and trailing slashes included. */
  lemma EveryObjectIsAddressable(bucket: string, key: string)
    requires IsBucketName(bucket) && key != ""
    ensures Route("/" + (bucket + "/" + key)) == OfObject(bucket, key)
  {
    var p := bucket + "/" + key;
    assert ("/" + p)[1..] == p;
    FindChar(bucket, '/', key);
    assert p[..|bucket|] == bucket && p[|bucket| + 1..] == key;
  }
}
