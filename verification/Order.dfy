/**
 Byte strings and their lexicographic order, the order in which S3 lists keys.
 A Go string is a sequence of bytes; here it is a `string` whose characters stand for
 bytes, compared by their codes. Every result holds for all strings of characters, hence
 for all strings of bytes.
 */
module Order {

  /** Strict lexicographic order: Go's `a < b` on strings. */
  predicate Less(a: string, b: string) {
    if b == [] then false
    else if a == [] then true
    else a[0] < b[0] || (a[0] == b[0] && Less(a[1..], b[1..]))
  }

  /** The first n characters agree, and then the first string ends or has the smaller character. */
  predicate DiffersAt(a: string, b: string, n: nat) {
    n <= |a| && n < |b| && a[..n] == b[..n] && (n == |a| || a[n] < b[n])
  }

  /** Byte order: at the first place where two strings differ, one ends or has the smaller character. */
  ghost predicate Precedes(a: string, b: string) {
    exists n: nat :: DiffersAt(a, b, n)
  }

  lemma DiffersInTail(a: string, b: string, n: nat)
    requires a != [] && b != [] && a[0] == b[0]
    ensures DiffersAt(a, b, n + 1) <==> DiffersAt(a[1..], b[1..], n)
  {
    if n + 1 <= |a| && n < |b| {
      assert a[..n + 1] == [a[0]] + a[1..][..n];
      assert b[..n + 1] == [b[0]] + b[1..][..n];
      assert a[1..][..n] == a[..n + 1][1..] && b[1..][..n] == b[..n + 1][1..];
    }
  }

  lemma DiffersBehindHead(a: string, b: string, n: nat)
    ensures DiffersAt(a, b, n) && n > 0 ==> a != [] && b != [] && a[0] == b[0]
  {
    if DiffersAt(a, b, n) && n > 0 {
      assert a[..n][0] == b[..n][0];
    }
  }

  /** The order that everything here is listed in is the byte order of strings. */
  lemma {:induction false} LessIsByteOrder(a: string, b: string)
    ensures Less(a, b) <==> Precedes(a, b)
  {
    if a == [] || b == [] || a[0] != b[0] {
      if Less(a, b) {
        assert DiffersAt(a, b, 0);
      }
      if Precedes(a, b) {
        var n: nat :| DiffersAt(a, b, n);
        DiffersBehindHead(a, b, n);
      }
    } else {
      LessIsByteOrder(a[1..], b[1..]);
      if Less(a, b) {
        var n: nat :| DiffersAt(a[1..], b[1..], n);
        DiffersInTail(a, b, n);
      }
      if Precedes(a, b) {
        var n: nat :| DiffersAt(a, b, n);
        if n > 0 {
          DiffersInTail(a, b, n - 1);
        }
      }
    }
  }

  lemma {:induction false} LessIrreflexive(a: string)
    ensures !Less(a, a)
  {
    if a != [] {
      LessIrreflexive(a[1..]);
    }
  }

  lemma {:induction false} LessTransitive(a: string, b: string, c: string)
    requires Less(a, b) && Less(b, c)
    ensures Less(a, c)
  {
    if a != [] && a[0] == b[0] && b[0] == c[0] {
      LessTransitive(a[1..], b[1..], c[1..]);
    }
  }

  lemma {:induction false} LessAsymmetric(a: string, b: string)
    requires Less(a, b)
    ensures !Less(b, a) && a != b
  {
    if a != [] && a[0] == b[0] {
      LessAsymmetric(a[1..], b[1..]);
    }
  }

  lemma {:induction false} LessTotal(a: string, b: string)
    ensures Less(a, b) || a == b || Less(b, a)
  {
    if a != [] && b != [] && a[0] == b[0] {
      LessTotal(a[1..], b[1..]);
      assert a == [a[0]] + a[1..] && b == [b[0]] + b[1..];
    }
  }

  /** A common prefix does not influence the order. */
  lemma {:induction false} LessBelowPrefix(p: string, a: string, b: string)
    ensures Less(p + a, p + b) == Less(a, b)
  {
    if p == [] {
      assert p + a == a && p + b == b;
    } else {
      assert (p + a)[1..] == p[1..] + a && (p + b)[1..] == p[1..] + b;
      LessBelowPrefix(p[1..], a, b);
    }
  }

  lemma ConcatAssociative<T>(a: seq<T>, b: seq<T>, c: seq<T>)
    ensures a + (b + c) == a + b + c
  {
  }

  predicate Ascending(s: seq<string>) {
    forall i, j :: 0 <= i < j < |s| ==> Less(s[i], s[j])
  }

  /** Of any two elements of an ordered list the earlier one precedes the later one. */
  lemma AscendingIsByteOrder(s: seq<string>)
    requires Ascending(s)
    ensures forall i, j :: 0 <= i < j < |s| ==> Precedes(s[i], s[j])
  {
    forall i, j | 0 <= i < j < |s| ensures Precedes(s[i], s[j]) {
      LessIsByteOrder(s[i], s[j]);
    }
  }

  lemma {:induction false} Minimum(keys: set<string>) returns (low: string)
    requires keys != {}
    ensures low in keys
    ensures forall k :: k in keys && k != low ==> Less(low, k)
  {
    var k :| k in keys;
    if keys == {k} {
      low := k;
    } else {
      var rest := Minimum(keys - {k});
      LessTotal(k, rest);
      assert k != rest;
      if Less(k, rest) {
        low := k;
        forall x | x in keys && x != k && x != rest ensures Less(k, x) {
          LessTransitive(k, rest, x);
        }
      } else {
        low := rest;
      }
    }
  }

  lemma AscendingCons(low: string, rest: seq<string>)
    requires Ascending(rest) && forall k :: k in rest ==> Less(low, k)
    ensures Ascending([low] + rest)
  {
    hide Less;
    forall i, j | 0 <= i < j < |[low] + rest| ensures Less(([low] + rest)[i], ([low] + rest)[j]) {
      assert ([low] + rest)[j] == rest[j - 1];
    }
  }

  /** The elements of a finite set of keys, in order. */
  function Sorted(keys: set<string>): (s: seq<string>)
    ensures Ascending(s)
    ensures forall k :: k in s <==> k in keys
    decreases |keys|
  {
    hide Less;
    if keys == {} then []
    else
      assert exists low :: low in keys && forall k :: k in keys && k != low ==> Less(low, k) by {
        var low := Minimum(keys);
      }
      assert forall a, b :: Less(a, b) ==> !Less(b, a) by {
        forall a, b | Less(a, b) ensures !Less(b, a) {
          LessAsymmetric(a, b);
        }
      }
      var low :| low in keys && forall k :: k in keys && k != low ==> Less(low, k);
      var rest := Sorted(keys - {low});
      AscendingCons(low, rest);
      [low] + rest
  }

  /** A list in strict order is determined by the set of its elements. */
  lemma {:induction false} AscendingUnique(a: seq<string>, b: seq<string>)
    requires Ascending(a) && Ascending(b)
    requires forall k :: k in a <==> k in b
    ensures a == b
  {
    if a == [] {
      assert forall i :: 0 <= i < |b| ==> b[i] in b;
    } else {
      assert a[0] in b;
      assert b[0] in a;
      if a[0] != b[0] {
        LessAsymmetric(a[0], b[0]);
      }
      assert forall k :: k in a <==> k == a[0] || k in a[1..];
      assert forall k :: k in b <==> k == b[0] || k in b[1..];
      forall i | 0 <= i < |a[1..]| ensures a[1..][i] != a[0] {
        assert Less(a[0], a[1 + i]);
        LessIrreflexive(a[0]);
      }
      forall i | 0 <= i < |b[1..]| ensures b[1..][i] != b[0] {
        assert Less(b[0], b[1 + i]);
        LessIrreflexive(b[0]);
      }
      AscendingUnique(a[1..], b[1..]);
      assert a == [a[0]] + a[1..] && b == [b[0]] + b[1..];
    }
  }
}
