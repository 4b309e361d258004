/** Searching byte strings: the parts of Go's strings package the gateway parses with. */
module Text {
  import opened Results

  /** The position of the first occurrence of a separator. */
  function Find(s: string, sep: string): (i: Option<nat>)
    requires sep != []
    ensures i.Some? ==> i.value + |sep| <= |s|
  {
    if sep <= s then Some(0)
    else if s == "" then None
    else
      match Find(s[1..], sep)
      case None => None
      case Some(i) => Some(i + 1)
  }

  /** Whether a separator stands at a position. */
  predicate StandsAt(s: string, sep: string, i: nat) {
    i + |sep| <= |s| && s[i..i + |sep|] == sep
  }

  lemma StandsInTail(s: string, sep: string, i: nat)
    requires s != "" && i > 0
    ensures StandsAt(s, sep, i) <==> StandsAt(s[1..], sep, i - 1)
  {
    if i + |sep| <= |s| {
      assert s[1..][i - 1..i - 1 + |sep|] == s[i..i + |sep|];
    }
  }

  lemma StandsBehind(s: string, sep: string, i: nat)
    requires StandsAt(s, sep, i)
    ensures i + |sep| <= |s| && s[..i] + sep == s[..i + |sep|]
  {
    assert s[..i] + s[i..i + |sep|] == s[..i + |sep|];
  }

  /** What is found is the first place where the separator stands, and nothing exactly if it stands nowhere. */
  lemma {:induction false} FindIsFirst(s: string, sep: string)
    requires sep != []
    ensures match Find(s, sep)
            case Some(i) => StandsAt(s, sep, i) && forall k: nat :: k < i ==> !StandsAt(s, sep, k)
            case None => forall k: nat :: !StandsAt(s, sep, k)
  {
    if sep <= s {
      assert s[0..0 + |sep|] == sep;
    } else {
      assert !StandsAt(s, sep, 0);
      if s != "" {
        FindIsFirst(s[1..], sep);
        forall k: nat | k > 0 ensures StandsAt(s, sep, k) <==> StandsAt(s[1..], sep, k - 1) {
          StandsInTail(s, sep, k);
        }
        var found := Find(s[1..], sep);
        FindStep(s, sep);
        hide Find, StandsAt;
        match found
        case None =>
        case Some(i) =>
          forall k: nat | k < i + 1 ensures !StandsAt(s, sep, k) {
            if k > 0 {
              assert !StandsAt(s[1..], sep, k - 1);
            }
          }
      }
    }
  }

  lemma {:induction false} FindStep(s: string, sep: string)
    requires sep != [] && s != "" && !(sep <= s)
    ensures Find(s, sep) == match Find(s[1..], sep) case None => None case Some(i) => Some(i + 1)
  {
  }

  lemma Truncation(s: string, sep: string, n: nat)
    requires 1 <= |sep| <= n <= |s|
    ensures sep <= s[..n] <==> sep <= s
    ensures s[..n][1..] == s[1..][..n - 1]
  {
  }

  /** Nothing behind the first occurrence matters. */
  lemma {:induction false} FindInTruncation(s: string, sep: string, i: nat)
    requires sep != [] && Find(s, sep) == Some(i)
    ensures Find(s[..i + |sep|], sep) == Some(i)
    decreases i
  {
    Truncation(s, sep, i + |sep|);
    if i > 0 {
      FindStep(s, sep);
      FindStep(s[..i + |sep|], sep);
      hide Find;
      FindInTruncation(s[1..], sep, i - 1);
    }
  }

  lemma {:induction false} FindChar(a: string, c: char, b: string)
    requires c !in a
    ensures Find(a + [c] + b, [c]) == Some(|a|)
  {
    var s := a + [c] + b;
    if a == "" {
      assert s[0] == c && [c] <= s;
    } else {
      assert a[0] in a && s[0] == a[0] && !([c] <= s);
      assert s[1..] == a[1..] + [c] + b;
      FindChar(a[1..], c, b);
    }
  }

  lemma {:induction false} FindCharSplits(s: string, c: char)
    requires Find(s, [c]).Some?
    ensures var i := Find(s, [c]).value; c !in s[..i] && s == s[..i] + [c] + s[i + 1..]
  {
    var i := Find(s, [c]).value;
    if i > 0 {
      FindCharSplits(s[1..], c);
      assert s[..i] == [s[0]] + s[1..][..i - 1];
    }
  }

  lemma {:induction false} FindCharNone(s: string, c: char)
    ensures Find(s, [c]).None? <==> c !in s
  {
    if s != "" {
      FindCharNone(s[1..], c);
      assert s == [s[0]] + s[1..];
    }
  }
}
