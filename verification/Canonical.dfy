/**
 The canonical forms that requests are signed in: section 2.1 of RFC 3986 percent-encoding of
 all but the unreserved characters of its section 2.3.
 */
module Canonical {
  import opened Order
  import opened Results
  import opened Text

  /** A string of bytes. */
  predicate IsBytes(s: string) {
    forall i :: 0 <= i < |s| ==> s[i] as int < 256
  }

  predicate Unreserved(c: char) {
    'A' <= c <= 'Z' || 'a' <= c <= 'z' || '0' <= c <= '9' || c == '-' || c == '_' || c == '.' || c == '~'
  }

  function HexDigit(d: nat): (c: char)
    requires d < 16
    ensures c != '%' && c != '/' && c != '=' && c != '&'
  {
    "0123456789ABCDEF"[d]
  }

  function HexValue(c: char): nat {
    if '0' <= c <= '9' then c as int - '0' as int
    else if 'A' <= c <= 'F' then c as int - 'A' as int + 10
    else 0
  }

  lemma HexInverse(d: nat)
    requires d < 16
    ensures HexValue(HexDigit(d)) == d
  {
    var digits := "0123456789ABCDEF";
    if d < 10 {
      assert digits[d] == '0' + d as char;
    } else {
      assert digits[d] == 'A' + (d - 10) as char;
    }
  }

  function EncodeByte(c: char): string
    requires c as int < 256
  {
    if Unreserved(c) then [c] else ['%', HexDigit(c as int / 16), HexDigit(c as int % 16)]
  }

  function AwsEncode(s: string): string
    requires IsBytes(s)
  {
    if s == "" then "" else EncodeByte(s[0]) + AwsEncode(s[1..])
  }

  /** The encoder's loop over a string builder. */
  method AwsEncodeLoop(s: string) returns (out: string)
    requires IsBytes(s)
    ensures out == AwsEncode(s)
  {
    out := "";
    assert s[0..] == s;
    for i := 0 to |s|
      invariant out + AwsEncode(s[i..]) == AwsEncode(s)
    {
      var c := s[i];
      assert s[i..][1..] == s[i + 1..];
      ConcatAssociative(out, EncodeByte(c), AwsEncode(s[i + 1..]));
      hide AwsEncode;
      if Unreserved(c) {
        out := out + [c];
      } else {
        out := out + ['%', HexDigit(c as int / 16), HexDigit(c as int % 16)];
      }
    }
    assert out + "" == out;
  }

  /** The codes of the unreserved characters: letters, digits, hyphen, period, underscore and tilde. */
  predicate IsUnreservedCode(n: nat) {
    0x41 <= n <= 0x5a || 0x61 <= n <= 0x7a || 0x30 <= n <= 0x39 || n == 0x2d || n == 0x2e || n == 0x5f || n == 0x7e
  }

  /** A byte of an unreserved character stays, every other becomes a percent sign and two upper-case digits. */
  lemma EncodedByteIs(c: char)
    requires c as int < 256
    ensures var e := AwsEncode([c]);
            if IsUnreservedCode(c as int) then e == [c]
            else
              exists high: nat, low: nat ::
                && high < 16 && low < 16 && c as int == high * 16 + low
                && e == ['%', "0123456789ABCDEF"[high], "0123456789ABCDEF"[low]]
  {
    assert Unreserved(c) <==> IsUnreservedCode(c as int);
    assert [c][1..] == "" && AwsEncode("") == "";
    assert AwsEncode([c]) == EncodeByte(c) + "" == EncodeByte(c);
    if !Unreserved(c) {
      var high, low := c as int / 16, c as int % 16;
      assert c as int == high * 16 + low;
    }
  }

  /** Encoding works byte by byte. */
  lemma {:induction false} AwsEncodeConcat(a: string, b: string)
    requires IsBytes(a) && IsBytes(b)
    ensures IsBytes(a + b) && AwsEncode(a + b) == AwsEncode(a) + AwsEncode(b)
  {
    hide EncodeByte;
    if a == "" {
      assert a + b == b;
    } else {
      assert (a + b)[1..] == a[1..] + b;
      AwsEncodeConcat(a[1..], b);
      assert AwsEncode(a + b) == EncodeByte(a[0]) + (AwsEncode(a[1..]) + AwsEncode(b));
    }
  }

  /** A percent-decoder, reading from the front. */
  function Decode(s: string): string {
    if s == "" then ""
    else if s[0] == '%' && |s| >= 3 then
      [(HexValue(s[1]) * 16 + HexValue(s[2])) as char] + Decode(s[3..])
    else [s[0]] + Decode(s[1..])
  }

  lemma {:induction false} DecodeByte(c: char, rest: string)
    requires c as int < 256
    ensures Decode(EncodeByte(c) + rest) == [c] + Decode(rest)
  {
    var s := EncodeByte(c) + rest;
    if Unreserved(c) {
      assert s[1..] == rest;
    } else {
      HexInverse(c as int / 16);
      HexInverse(c as int % 16);
      assert s[3..] == rest;
      assert (c as int / 16 * 16 + c as int % 16) as char == c;
    }
  }

  /** Percent-decoding inverts the encoding of any byte string. */
  lemma {:induction false} DecodeEncode(s: string)
    requires IsBytes(s)
    ensures Decode(AwsEncode(s)) == s
  {
    if s != "" {
      DecodeByte(s[0], AwsEncode(s[1..]));
      DecodeEncode(s[1..]);
    }
  }

  lemma {:induction false} AwsEncodeInjective(a: string, b: string)
    requires IsBytes(a) && IsBytes(b) && AwsEncode(a) == AwsEncode(b)
    ensures a == b
  {
    DecodeEncode(a);
    DecodeEncode(b);
  }

  /** No separator survives encoding. */
  lemma {:induction false} EncodedIsPlain(s: string)
    requires IsBytes(s)
    ensures '/' !in AwsEncode(s) && '=' !in AwsEncode(s) && '&' !in AwsEncode(s)
  {
    if s != "" {
      EncodedIsPlain(s[1..]);
    }
  }

  // ---------------------------------------------------------------- paths

  /** The encoded segments of a path, joined by slashes; what strings.Split and Join do around them. */
  function EncodeSegments(path: string): string
    requires IsBytes(path)
    decreases |path|
  {
    match Find(path, "/")
    case None => AwsEncode(path)
    case Some(i) => AwsEncode(path[..i]) + "/" + EncodeSegments(path[i + 1..])
  }

  function CanonicalURI(path: string): string
    requires IsBytes(path)
  {
    if path == "" then "/" else EncodeSegments(path)
  }

  lemma {:induction false} EncodeSegmentsInjective(a: string, b: string)
    requires IsBytes(a) && IsBytes(b) && EncodeSegments(a) == EncodeSegments(b)
    ensures a == b
    decreases |a|
  {
    var i, j := Find(a, "/"), Find(b, "/");
    FirstSegment(a);
    FirstSegment(b);
    if i.Some? && j.Some? {
      FindCharSplits(a, '/');
      FindCharSplits(b, '/');
      hide Find, EncodeSegments, AwsEncode;
      AwsEncodeInjective(a[..i.value], b[..j.value]);
      EncodeSegmentsInjective(a[i.value + 1..], b[j.value + 1..]);
    } else if i.None? && j.None? {
      hide Find;
      AwsEncodeInjective(a, b);
    }
  }

  /** Where the first slash of an encoded path is, and what is on either side of it. */
  lemma {:induction false} FirstSegment(path: string)
    requires IsBytes(path)
    ensures var e := EncodeSegments(path);
            match Find(path, "/")
            case None => Find(e, "/").None?
            case Some(i) =>
              && Find(e, "/") == Some(|AwsEncode(path[..i])|)
              && e[..|AwsEncode(path[..i])|] == AwsEncode(path[..i])
              && e[|AwsEncode(path[..i])| + 1..] == EncodeSegments(path[i + 1..])
  {
    match Find(path, "/")
    case None =>
      EncodedIsPlain(path);
      FindCharNone(AwsEncode(path), '/');
    case Some(i) =>
      EncodedIsPlain(path[..i]);
      FindChar(AwsEncode(path[..i]), '/', EncodeSegments(path[i + 1..]));
  }

  lemma {:induction false} SlashFirst(rest: string)
    requires IsBytes(rest)
    ensures IsBytes(['/'] + rest) && EncodeSegments(['/'] + rest) == "/" + EncodeSegments(rest)
  {
    var path := ['/'] + rest;
    assert path[1..] == rest && AwsEncode("") == "";
    assert "/" <= path && Find(path, "/") == Some(0);
    assert path[..0] == "" && path[0 + 1..] == rest;
  }

  lemma {:induction false} FindBehind(c: char, rest: string)
    requires c != '/'
    ensures Find([c] + rest, "/") == match Find(rest, "/") case None => None case Some(i) => Some(i + 1)
  {
    var path := [c] + rest;
    assert path[0] == c && path[1..] == rest;
    FindStep(path, "/");
  }

  lemma {:induction false} ByteFirst(c: char, rest: string)
    requires c as int < 256 && c != '/' && IsBytes(rest)
    ensures IsBytes([c] + rest) && EncodeSegments([c] + rest) == AwsEncode([c]) + EncodeSegments(rest)
  {
    hide *;
    var path := [c] + rest;
    OneByteIsBytes(c);
    AwsEncodeConcat([c], rest);
    FindBehind(c, rest);
    match Find(rest, "/")
    case None =>
      SegmentsWithoutSlash(path);
      SegmentsWithoutSlash(rest);
    case Some(i) =>
      SegmentsWithSlash(path, i + 1);
      SegmentsWithSlash(rest, i);
      assert path[..i + 1] == [c] + rest[..i] && path[i + 1 + 1..] == rest[i + 1..];
      AwsEncodeConcat([c], rest[..i]);
      Regroup(AwsEncode([c]), AwsEncode(rest[..i]), EncodeSegments(rest[i + 1..]));
  }

  lemma Regroup(a: string, b: string, c: string)
    ensures (a + b) + "/" + c == a + (b + "/" + c)
  {
  }

  lemma OneByteIsBytes(c: char)
    requires c as int < 256
    ensures IsBytes([c])
  {
  }

  lemma {:induction false} SegmentsWithoutSlash(path: string)
    requires IsBytes(path) && Find(path, "/").None?
    ensures EncodeSegments(path) == AwsEncode(path)
  {
  }

  lemma {:induction false} SegmentsWithSlash(path: string, i: nat)
    requires IsBytes(path) && Find(path, "/") == Some(i)
    ensures i < |path| && IsBytes(path[..i]) && IsBytes(path[i + 1..])
    ensures EncodeSegments(path) == AwsEncode(path[..i]) + "/" + EncodeSegments(path[i + 1..])
  {
  }

  /** A canonical path keeps every slash and encodes every other byte. */
  lemma {:induction false} CanonicalPathIs(c: char, rest: string)
    requires c as int < 256 && IsBytes(rest)
    ensures IsBytes([c] + rest)
    ensures CanonicalURI([c] + rest) == (if c == '/' then "/" else AwsEncode([c])) + EncodeSegments(rest)
    ensures EncodeSegments([c] + rest) == CanonicalURI([c] + rest)
    ensures EncodeSegments("") == "" && CanonicalURI("") == "/"
  {
    if c == '/' {
      SlashFirst(rest);
    } else {
      ByteFirst(c, rest);
    }
    assert Find("", "/").None?;
    hide Find;
  }

  /** Two paths with the same canonical form are the same, except that an empty path stands for "/". */
  lemma CanonicalURIInjective(a: string, b: string)
    requires IsBytes(a) && IsBytes(b)
    ensures CanonicalURI(a) == CanonicalURI(b) <==> a == b || {a, b} == {"", "/"}
  {
    SlashIsItself();
    if CanonicalURI(a) == CanonicalURI(b) {
      EncodeSegmentsInjective(if a == "" then "/" else a, if b == "" then "/" else b);
    }
  }

  lemma SlashIsItself()
    ensures EncodeSegments("/") == "/"
  {
    var s := "/";
    assert s[..1] == "/" && Find(s, "/") == Some(0);
    assert s[..0] == "" && s[1..] == "";
    assert Find("", "/").None?;
  }

  // ---------------------------------------------------------------- queries

  /** A parsed query: every key with its values, of which there is at least one. */
  type Query = map<string, seq<string>>

  predicate IsQuery(q: Query) {
    forall k :: k in q ==> IsBytes(k) && q[k] != [] && forall v :: v in q[k] ==> IsBytes(v)
  }

  /** The least of some values: what sorting puts first. */
  function Least(values: seq<string>): (low: string)
    requires values != []
    ensures low in values && forall v :: v in values && v != low ==> Less(low, v)
  {
    var sorted := Sorted(set v | v in values);
    assert values[0] in sorted;
    assert forall v :: v in values <==> v in sorted;
    sorted[0]
  }

  predicate IsFlat(q: map<string, string>) {
    forall k :: k in q ==> IsBytes(k) && IsBytes(q[k])
  }

  /** What the canonical form keeps of a query: of several values of a key only the least. */
  function Kept(q: Query): (f: map<string, string>)
    requires IsQuery(q)
    ensures f.Keys == q.Keys && IsFlat(f)
  {
    map k | k in q :: Least(q[k])
  }

  lemma KeptAt(q: Query, k: string)
    requires IsQuery(q) && k in q
    ensures q[k] != [] && IsBytes(k) && IsBytes(Least(q[k])) && Kept(q)[k] == Least(q[k])
    ensures |q[k]| == 1 ==> q[k] == [Kept(q)[k]]
  {
  }

  /** One parameter, encoded. */
  function Parameter(key: string, value: string): string
    requires IsBytes(key) && IsBytes(value)
  {
    AwsEncode(key) + "=" + AwsEncode(value)
  }

  /** The parameters of some keys, in the given order. */
  function Parameters(q: map<string, string>, keys: seq<string>): string
    requires IsFlat(q) && forall k :: k in keys ==> k in q
  {
    if keys == [] then ""
    else if |keys| == 1 then Parameter(keys[0], q[keys[0]])
    else Parameter(keys[0], q[keys[0]]) + "&" + Parameters(q, keys[1..])
  }

  /** The canonical form of a query. */
  function CanonicalQueryString(q: Query): string
    requires IsQuery(q)
  {
    Parameters(Kept(q), Sorted(q.Keys))
  }

  /** Appending a key to a list of parameters appends its parameter. */
  lemma {:induction false} ParametersAppend(q: map<string, string>, keys: seq<string>, last: string)
    requires IsFlat(q) && last in q && forall k :: k in keys ==> k in q
    ensures Parameters(q, keys + [last])
         == Parameters(q, keys) + (if keys == [] then "" else "&") + Parameter(last, q[last])
  {
    var all := keys + [last];
    hide Parameter;
    if keys == [] {
      assert all == [last];
    } else {
      assert all[1..] == keys[1..] + [last];
      ParametersAppend(q, keys[1..], last);
    }
  }

  lemma OneMoreKey(keys: seq<string>, i: nat)
    requires i < |keys|
    ensures keys[..i + 1] == keys[..i] + [keys[i]]
  {
  }

  /** The loop over the sorted keys, which sorts the values of each and takes the first. */
  method CanonicalQueryLoop(q: Query) returns (out: string)
    requires IsQuery(q)
    ensures out == CanonicalQueryString(q)
  {
    var keys := Sorted(q.Keys);
    assert forall k :: k in keys ==> k in q;
    ghost var f := Kept(q);
    out := "";
    assert Parameters(f, keys[..0]) == "";
    hide IsQuery, IsFlat, IsBytes, Parameters, Parameter, AwsEncode, Kept, Ascending, Less;
    for i := 0 to |keys|
      invariant out == Parameters(f, keys[..i])
    {
      KeptAt(q, keys[i]);
      ParametersAppend(f, keys[..i], keys[i]);
      OneMoreKey(keys, i);
      if i > 0 {
        out := out + "&";
      }
      out := out + Parameter(keys[i], Least(q[keys[i]]));
    }
    assert keys[..|keys|] == keys;
  }

  lemma ParameterInjective(k1: string, v1: string, k2: string, v2: string)
    requires IsBytes(k1) && IsBytes(v1) && IsBytes(k2) && IsBytes(v2)
    requires Parameter(k1, v1) == Parameter(k2, v2)
    ensures k1 == k2 && v1 == v2
  {
    EncodedIsPlain(k1);
    EncodedIsPlain(k2);
    FindChar(AwsEncode(k1), '=', AwsEncode(v1));
    FindChar(AwsEncode(k2), '=', AwsEncode(v2));
    var p, n := Parameter(k1, v1), |AwsEncode(k1)|;
    assert p[..n] == AwsEncode(k1) == AwsEncode(k2);
    assert p[n + 1..] == AwsEncode(v1) == AwsEncode(v2);
    AwsEncodeInjective(k1, k2);
    AwsEncodeInjective(v1, v2);
  }

  /** Where the first parameter of a query string ends. */
  lemma {:induction false} FirstParameter(q: map<string, string>, keys: seq<string>)
    requires IsFlat(q) && (forall k :: k in keys ==> k in q) && keys != []
    ensures var first, all := Parameter(keys[0], q[keys[0]]), Parameters(q, keys);
            && '=' in all && '&' !in first
            && if |keys| == 1 then all == first && Find(all, "&").None?
               else Find(all, "&") == Some(|first|) && all[..|first|] == first
                    && all[|first| + 1..] == Parameters(q, keys[1..])
  {
    EncodedIsPlain(keys[0]);
    EncodedIsPlain(q[keys[0]]);
    hide AwsEncode, Find;
    var first := Parameter(keys[0], q[keys[0]]);
    assert '=' in first by { assert first[|AwsEncode(keys[0])|] == '='; }
    FindCharNone(first, '&');
    if |keys| > 1 {
      FindChar(first, '&', Parameters(q, keys[1..]));
    }
  }

  lemma {:induction false} ParametersInjective(q1: map<string, string>, keys1: seq<string>, q2: map<string, string>,
                                               keys2: seq<string>)
    requires IsFlat(q1) && IsFlat(q2)
    requires (forall k :: k in keys1 ==> k in q1) && (forall k :: k in keys2 ==> k in q2)
    requires Parameters(q1, keys1) == Parameters(q2, keys2)
    ensures keys1 == keys2
    ensures forall k :: k in keys1 ==> q1[k] == q2[k]
    decreases |keys1|
  {
    if keys1 != [] {
      FirstParameter(q1, keys1);
    }
    if keys2 != [] {
      FirstParameter(q2, keys2);
    }
    hide Parameter;
    if keys1 != [] && keys2 != [] {
      assert IsBytes(keys1[0]) && IsBytes(q1[keys1[0]]) && IsBytes(keys2[0]) && IsBytes(q2[keys2[0]]);
      hide Parameters, IsFlat, IsBytes, Find;
      ParameterInjective(keys1[0], q1[keys1[0]], keys2[0], q2[keys2[0]]);
      if |keys1| > 1 {
        ParametersInjective(q1, keys1[1..], q2, keys2[1..]);
        assert keys1 == [keys1[0]] + keys1[1..] && keys2 == [keys2[0]] + keys2[1..];
      } else {
        assert keys1 == [keys1[0]] && keys2 == [keys2[0]];
      }
    }
  }

  /**
   Two queries have the same canonical form if and only if they agree in their keys and in the
   least value of each.
   */
  lemma SameCanonicalExactlyIf(q1: Query, q2: Query)
    requires IsQuery(q1) && IsQuery(q2)
    ensures CanonicalQueryString(q1) == CanonicalQueryString(q2) <==> Kept(q1) == Kept(q2)
  {
    hide IsQuery, IsFlat, IsBytes;
    if CanonicalQueryString(q1) == CanonicalQueryString(q2) {
      ParametersInjective(Kept(q1), Sorted(q1.Keys), Kept(q2), Sorted(q2.Keys));
      assert q1.Keys == q2.Keys by {
        forall k ensures k in q1 <==> k in q2 {
          assert k in Sorted(q1.Keys) <==> k in q1.Keys;
          assert k in Sorted(q2.Keys) <==> k in q2.Keys;
        }
      }
    }
    if Kept(q1) == Kept(q2) {
      assert q1.Keys == q2.Keys;
    }
  }

  lemma {:induction false} TwoParameters(f: map<string, string>, k1: string, k2: string)
    requires IsFlat(f) && f.Keys == {k1, k2} && Less(k1, k2)
    ensures Parameters(f, Sorted(f.Keys))
         == AwsEncode(k1) + "=" + AwsEncode(f[k1]) + "&" + (AwsEncode(k2) + "=" + AwsEncode(f[k2]))
  {
    var keys := [k1, k2];
    AscendingUnique(Sorted(f.Keys), keys);
    hide AwsEncode, IsBytes;
    assert keys[1..] == [k2];
  }

  lemma {:induction false} LeastOfTwo(a: string, b: string)
    requires Less(a, b)
    ensures Least([b, a]) == a
  {
    var values := [b, a];
    LessAsymmetric(a, b);
    assert values[0] == b && values[1] == a;
    assert b in values && a in values;
  }

  /** An example: keys in byte order, "=" between key and value, "&" between parameters, the least value kept. */
  lemma CanonicalQueryExample()
    ensures var q: Query := map["b" := ["2"], "a" := ["1", "0"]];
            IsQuery(q) && CanonicalQueryString(q) == "a=0&b=2"
  {
    KeptOfExample();
    ParametersOfExample();
    hide Parameters, Kept, Sorted, IsQuery, IsFlat;
  }

  lemma ParametersOfExample()
    ensures var f := map["b" := "2", "a" := "0"];
            IsFlat(f) && Parameters(f, Sorted({"a", "b"})) == "a=0&b=2"
  {
    var f := map["b" := "2", "a" := "0"];
    OneByte('a');
    OneByte('b');
    OneByte('0');
    OneByte('2');
    assert Less("a", "b") && f.Keys == {"a", "b"};
    hide AwsEncode, Parameters, Sorted, Less;
    TwoParameters(f, "a", "b");
  }

  lemma KeptOfExample()
    ensures var q: Query := map["b" := ["2"], "a" := ["1", "0"]];
            IsQuery(q) && Kept(q) == map["b" := "2", "a" := "0"] && q.Keys == {"a", "b"}
  {
    var q: Query := map["b" := ["2"], "a" := ["1", "0"]];
    assert Less("0", "1");
    LeastOfTwo("0", "1");
    var one := ["2"];
    assert Least(one) in one && one[0] == "2";
    hide Least, Less;
  }

  lemma OneByte(c: char)
    requires Unreserved(c)
    ensures AwsEncode([c]) == [c]
  {
    assert [c][1..] == "" && AwsEncode("") == "";
  }

  predicate IsSingleValued(q: Query) {
    forall k :: k in q ==> |q[k]| == 1
  }

  /** So of queries whose keys have one value each, only equal ones have the same canonical form. */
  lemma CanonicalQueryStringInjective(q1: Query, q2: Query)
    requires IsQuery(q1) && IsQuery(q2) && IsSingleValued(q1) && IsSingleValued(q2)
    ensures CanonicalQueryString(q1) == CanonicalQueryString(q2) <==> q1 == q2
  {
    hide IsQuery, IsFlat, IsBytes, Kept, CanonicalQueryString, Least;
    SameCanonicalExactlyIf(q1, q2);
    if Kept(q1) == Kept(q2) {
      assert q1.Keys == q2.Keys;
      forall k | k in q1 ensures q1[k] == q2[k] {
        KeptAt(q1, k);
        KeptAt(q2, k);
      }
    }
  }

  /** With several values it is not injective: all but the least are lost. */
  lemma OtherValuesAreLost()
    ensures var q1: Query, q2: Query := map["a" := ["1", "2"]], map["a" := ["1"]];
            IsQuery(q1) && IsQuery(q2) && q1 != q2 && CanonicalQueryString(q1) == CanonicalQueryString(q2)
  {
    var q1: Query, q2: Query := map["a" := ["1", "2"]], map["a" := ["1"]];
    assert Less("1", "2") && !Less("2", "1");
    assert q1["a"][1] == "2" && q2["a"][0] == "1" && |q1["a"]| == 2 && |q2["a"]| == 1;
    assert Least(["1", "2"]) == "1" && Least(["1"]) == "1";
    assert Kept(q1) == Kept(q2);
    SameCanonicalExactlyIf(q1, q2);
  }
}
