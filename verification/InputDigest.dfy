/** The byte stream the release-input digests hash (`runtime_input_digest.py`, `windows_input_digest.py`).
    SHA-256 is taken to be collision free, so the question is whether the stream determines its inputs. */
module InputDigest {
  import opened Common

  datatype Pair = Pair(first: Bytes, second: Bytes)

  /** Build contract, (path, content) of each tracked file, (key, value) of each resolved input. */
  datatype Inputs = Inputs(contract: Bytes, files: seq<Pair>, inputs: seq<Pair>)

  function Ascii(s: string): Bytes
    requires forall i :: 0 <= i < |s| ==> s[i] as int < 128
  {
    seq(|s|, i requires 0 <= i < |s| => s[i] as int)
  }

  const VM_DOMAIN: Bytes := Ascii("sing-box-vm-runtime-input") + [0]
  const WINDOWS_DOMAIN: Bytes := Ascii("sing-box-windows-candidate-input") + [0]
  const CONTRACT_TAG: Bytes := Ascii("build-contract") + [0]
  const FILE_TAG: Bytes := Ascii("file") + [0]
  const INPUT_TAG: Bytes := Ascii("input") + [0]
  const SCHEMA: nat := 1

  // -------------------------------------------------------------------------
  // Big-endian integers

  function Power256(k: nat): (r: nat)
    ensures r > 0
  {
    if k == 0 then 1 else 256 * Power256(k - 1)
  }

  function ToBytes(n: nat, k: nat): (r: Bytes)
    ensures |r| == k
  {
    if k == 0 then [] else ToBytes(n / 256, k - 1) + [n % 256]
  }

  function FromBytes(s: Bytes): (n: nat)
    ensures n < Power256(|s|)
  {
    if s == [] then 0 else 256 * FromBytes(s[..|s| - 1]) + s[|s| - 1]
  }

  lemma {:induction false} ToFromBytes(n: nat, k: nat)
    requires n < Power256(k)
    ensures FromBytes(ToBytes(n, k)) == n
  {
    if k == 0 {
    } else {
      ToFromBytes(n / 256, k - 1);
      assert ToBytes(n, k)[..k - 1] == ToBytes(n / 256, k - 1);
    }
  }

  lemma {:induction false} FromToBytes(s: Bytes)
    ensures ToBytes(FromBytes(s), |s|) == s
  {
    if s == [] {
    } else {
      FromToBytes(s[..|s| - 1]);
      assert s == s[..|s| - 1] + [s[|s| - 1]];
    }
  }

  /** Big-endian: the byte at place `i` counts in units of 256 to the number of bytes after it. */
  lemma {:induction false} BigEndian(n: nat, k: nat, i: nat)
    requires i < k
    ensures ToBytes(n, k)[i] == (n / Power256(k - 1 - i)) % 256
  {
    if i == k - 1 {
      assert Power256(0) == 1;
    } else {
      BigEndian(n / 256, k - 1, i);
      DivideTwice(n, Power256(k - 2 - i));
    }
  }

  lemma DivideTwice(n: nat, m: nat)
    requires m > 0
    ensures n / (256 * m) == (n / 256) / m
  {
    var q, r := n / 256, n % 256;
    var a, b := q / m, q % m;
    assert q == m * a + b;
    assert n == 256 * q + r;
    assert 256 * (m * a) == (256 * m) * a;
    QuotientIs(n, 256 * m, a, 256 * b + r);
  }

  lemma QuotientIs(n: nat, d: nat, q: nat, r: nat)
    requires r < d && n == d * q + r
    ensures n / d == q
  {
    var q', r' := n / d, n % d;
    assert n == d * q' + r';
    if q' > q {
      Multiples(d, q, q');
    } else if q > q' {
      Multiples(d, q', q);
    }
  }

  lemma Multiples(d: nat, a: nat, b: nat)
    requires a < b
    ensures d * a + d <= d * b
  {
    assert d * b == d * (a + 1) + d * (b - a - 1);
  }

  // -------------------------------------------------------------------------
  // Framing

  /** Python's `to_bytes(8, "big")` refuses longer fields. */
  predicate Fits(v: Bytes) {
    |v| < Power256(8)
  }

  /** `_feed_field`. */
  function Field(v: Bytes): Bytes {
    ToBytes(|v|, 8) + v
  }

  function One(p: Pair, tag: Bytes): Bytes {
    tag + Field(p.first) + Field(p.second)
  }

  function Pairs(ps: seq<Pair>, tag: Bytes): Bytes {
    if ps == [] then [] else One(ps[0], tag) + Pairs(ps[1..], tag)
  }

  lemma Suffix(a: Bytes, b: Bytes)
    ensures a <= a + b && (a + b)[|a|..] == b
  {
  }

  lemma Associate(a: Bytes, b: Bytes, c: Bytes)
    ensures (a + b) + c == a + (b + c)
  {
  }

  /** Everything fed to the hash, in order. */
  function Stream(domain: Bytes, x: Inputs): Bytes {
    Header(domain) + Body(x)
  }

  function Header(domain: Bytes): Bytes {
    domain + (ToBytes(SCHEMA, 4) + CONTRACT_TAG)
  }

  function Body(x: Inputs): Bytes {
    Field(x.contract) + (Pairs(x.files, FILE_TAG) + Pairs(x.inputs, INPUT_TAG))
  }

  /** Every stream begins with its domain, the schema as four bytes, the contract tag, and the contract's length. */
  lemma StreamBegins(domain: Bytes, x: Inputs)
    ensures domain + [0, 0, 0, 1] + Ascii("build-contract") + [0] + ToBytes(|x.contract|, 8) + x.contract <= Stream(domain, x)
  {
    assert ToBytes(1, 4) == [0, 0, 0, 1] by {
      assert ToBytes(0, 1) == [0] && ToBytes(0, 2) == [0, 0] && ToBytes(0, 3) == [0, 0, 0];
    }
    var begin := domain + [0, 0, 0, 1] + Ascii("build-contract") + [0] + ToBytes(|x.contract|, 8) + x.contract;
    assert Stream(domain, x) == begin + (Pairs(x.files, FILE_TAG) + Pairs(x.inputs, INPUT_TAG));
  }

  predicate PairsFit(ps: seq<Pair>) {
    forall i :: 0 <= i < |ps| ==> Fits(ps[i].first) && Fits(ps[i].second)
  }

  predicate AllFit(x: Inputs) {
    Fits(x.contract) && PairsFit(x.files) && PairsFit(x.inputs)
  }

  // -------------------------------------------------------------------------
  // Reading it back

  datatype Parsed<T> = Rejected | Parsed(value: T, rest: Bytes)

  function ParseField(s: Bytes): (r: Parsed<Bytes>)
    ensures r.Parsed? ==> |r.rest| < |s|
  {
    if |s| < 8 then Rejected
    else
      var n := FromBytes(s[..8]);
      if |s| - 8 < n then Rejected else Parsed(s[8..8 + n], s[8 + n..])
  }

  /** As many tagged pairs as there are. */
  function ParsePairs(s: Bytes, tag: Bytes): Parsed<seq<Pair>>
    decreases |s|
  {
    if !(tag <= s) then Parsed([], s)
    else
      match ParseField(s[|tag|..])
      case Rejected => Rejected
      case Parsed(first, s1) =>
        match ParseField(s1)
        case Rejected => Rejected
        case Parsed(second, s2) =>
          match ParsePairs(s2, tag)
          case Rejected => Rejected
          case Parsed(ps, rest) => Parsed([Pair(first, second)] + ps, rest)
  }

  function ParseBody(s: Bytes): Option<Inputs> {
    match ParseField(s)
    case Rejected => None
    case Parsed(contract, s1) =>
      match ParsePairs(s1, FILE_TAG)
      case Rejected => None
      case Parsed(files, s2) =>
        match ParsePairs(s2, INPUT_TAG)
        case Rejected => None
        case Parsed(inputs, s3) => if s3 == [] then Some(Inputs(contract, files, inputs)) else None
  }

  function Decode(domain: Bytes, s: Bytes): Option<Inputs> {
    if Header(domain) <= s then ParseBody(s[|Header(domain)|..]) else None
  }

  // -------------------------------------------------------------------------
  // Encoding, then decoding

  lemma FieldReads(v: Bytes, rest: Bytes)
    requires Fits(v)
    ensures ParseField(Field(v) + rest) == Parsed(v, rest)
  {
    var s := Field(v) + rest;
    assert s[..8] == ToBytes(|v|, 8);
    ToFromBytes(|v|, 8);
    assert s[8..8 + |v|] == v;
    assert s[8 + |v|..] == rest;
  }

  lemma OneReads(p: Pair, tag: Bytes, rest: Bytes)
    requires Fits(p.first) && Fits(p.second)
    ensures tag <= One(p, tag) + rest
    ensures ParseField((One(p, tag) + rest)[|tag|..]) == Parsed(p.first, Field(p.second) + rest)
    ensures ParseField(Field(p.second) + rest) == Parsed(p.second, rest)
  {
    var s1 := Field(p.second) + rest;
    Associate(tag + Field(p.first), Field(p.second), rest);
    Associate(tag, Field(p.first), s1);
    assert (tag + (Field(p.first) + s1))[|tag|..] == Field(p.first) + s1;
    FieldReads(p.first, s1);
    FieldReads(p.second, rest);
  }

  lemma {:induction false} PairsRead(ps: seq<Pair>, tag: Bytes, rest: Bytes)
    requires PairsFit(ps) && !(tag <= rest)
    ensures ParsePairs(Pairs(ps, tag) + rest, tag) == Parsed(ps, rest)
  {
    if ps == [] {
      assert Pairs(ps, tag) + rest == rest;
    } else {
      Associate(One(ps[0], tag), Pairs(ps[1..], tag), rest);
      OneReads(ps[0], tag, Pairs(ps[1..], tag) + rest);
      PairsRead(ps[1..], tag, rest);
      assert [ps[0]] + ps[1..] == ps;
    }
  }

  /** The tags tell files, inputs and the end of the stream apart. */
  lemma TagsDistinct(ps: seq<Pair>)
    ensures !(FILE_TAG <= Pairs(ps, INPUT_TAG))
    ensures !(INPUT_TAG <= [])
  {
    assert FILE_TAG[0] == 'f' as int && INPUT_TAG[0] == 'i' as int;
    assert ps != [] ==> Pairs(ps, INPUT_TAG)[0] == INPUT_TAG[0];
  }

  lemma BodyReads(x: Inputs)
    requires AllFit(x)
    ensures ParseBody(Body(x)) == Some(x)
  {
    FieldReads(x.contract, Pairs(x.files, FILE_TAG) + Pairs(x.inputs, INPUT_TAG));
    TagsDistinct(x.inputs);
    PairsRead(x.files, FILE_TAG, Pairs(x.inputs, INPUT_TAG));
    PairsRead(x.inputs, INPUT_TAG, []);
    assert Pairs(x.inputs, INPUT_TAG) + [] == Pairs(x.inputs, INPUT_TAG);
  }

  /** Decoding a stream gives back exactly its inputs. */
  lemma DecodeStream(domain: Bytes, x: Inputs)
    requires AllFit(x)
    ensures Decode(domain, Stream(domain, x)) == Some(x)
  {
    Suffix(Header(domain), Body(x));
    BodyReads(x);
  }

  // -------------------------------------------------------------------------
  // Decoding, then encoding

  lemma FieldWritten(s: Bytes)
    requires ParseField(s).Parsed?
    ensures Fits(ParseField(s).value)
    ensures s == Field(ParseField(s).value) + ParseField(s).rest
  {
    FromToBytes(s[..8]);
    assert s == s[..8] + (s[8..8 + FromBytes(s[..8])] + s[8 + FromBytes(s[..8])..]);
  }

  lemma OneWritten(s: Bytes, tag: Bytes)
    requires tag <= s && ParseField(s[|tag|..]).Parsed? && ParseField(ParseField(s[|tag|..]).rest).Parsed?
    ensures var a := ParseField(s[|tag|..]); var b := ParseField(a.rest);
            Fits(a.value) && Fits(b.value) && s == One(Pair(a.value, b.value), tag) + b.rest
  {
    var a := ParseField(s[|tag|..]);
    var b := ParseField(a.rest);
    FieldWritten(s[|tag|..]);
    FieldWritten(a.rest);
    assert s == tag + s[|tag|..];
    Associate(tag + Field(a.value), Field(b.value), b.rest);
    Associate(tag, Field(a.value), Field(b.value) + b.rest);
  }

  lemma {:induction false} PairsWritten(s: Bytes, tag: Bytes)
    requires ParsePairs(s, tag).Parsed?
    ensures PairsFit(ParsePairs(s, tag).value)
    ensures s == Pairs(ParsePairs(s, tag).value, tag) + ParsePairs(s, tag).rest
    decreases |s|
  {
    var r := ParsePairs(s, tag);
    if !(tag <= s) {
      assert s == [] + s;
    } else {
      var a := ParseField(s[|tag|..]);
      var b := ParseField(a.rest);
      OneWritten(s, tag);
      PairsWritten(b.rest, tag);
      var ps := ParsePairs(b.rest, tag).value;
      assert r.value[1..] == ps && r.value[0] == Pair(a.value, b.value);
      Associate(One(r.value[0], tag), Pairs(ps, tag), r.rest);
    }
  }

  lemma BodyWritten(s: Bytes)
    requires ParseBody(s).Some?
    ensures AllFit(ParseBody(s).value) && Body(ParseBody(s).value) == s
  {
    var a := ParseField(s);
    FieldWritten(s);
    PairsWritten(a.rest, FILE_TAG);
    var f := ParsePairs(a.rest, FILE_TAG);
    PairsWritten(f.rest, INPUT_TAG);
    var i := ParsePairs(f.rest, INPUT_TAG);
    assert Pairs(i.value, INPUT_TAG) + [] == Pairs(i.value, INPUT_TAG);
  }

  /** Only streams decode: whatever decodes is the stream of its decoding. */
  lemma StreamOfDecoded(domain: Bytes, s: Bytes)
    requires Decode(domain, s).Some?
    ensures AllFit(Decode(domain, s).value)
    ensures Stream(domain, Decode(domain, s).value) == s
  {
    BodyWritten(s[|Header(domain)|..]);
    assert s == Header(domain) + s[|Header(domain)|..];
  }

  // -------------------------------------------------------------------------
  // Injectivity

  /** Different inputs never give the same stream. */
  lemma StreamsDetermineInputs(domain: Bytes, x: Inputs, y: Inputs)
    requires AllFit(x) && AllFit(y)
    ensures Stream(domain, x) == Stream(domain, y) <==> x == y
  {
    DecodeStream(domain, x);
    DecodeStream(domain, y);
  }

  lemma DomainLeads(domain: Bytes, x: Inputs, i: nat)
    requires i < |domain|
    ensures |Stream(domain, x)| > i && Stream(domain, x)[i] == domain[i]
  {
    Associate(domain, ToBytes(SCHEMA, 4) + CONTRACT_TAG, Body(x));
  }

  /** No VM stream is a Windows stream. */
  lemma VmAndWindowsStreamsDiffer(x: Inputs, y: Inputs)
    ensures Stream(VM_DOMAIN, x) != Stream(WINDOWS_DOMAIN, y)
  {
    DomainLeads(VM_DOMAIN, x, 9);
    DomainLeads(WINDOWS_DOMAIN, y, 9);
    assert VM_DOMAIN[9] == 'v' as int && WINDOWS_DOMAIN[9] == 'w' as int;
  }

  // -------------------------------------------------------------------------
  // The hashing loops

  /** `_feed_field` on a running hash context. */
  method FeedField(context: Bytes, value: Bytes) returns (r: Result<Bytes>)
    ensures r.Ok? <==> Fits(value)
    ensures r.Ok? ==> r.value == context + Field(value)
  {
    if |value| >= 0x1_0000_0000_0000_0000 {
      assert Power256(8) == 0x1_0000_0000_0000_0000 by { PowerOfEight(); }
      return Err("int too big to convert");
    }
    assert Power256(8) == 0x1_0000_0000_0000_0000 by { PowerOfEight(); }
    var prefixed := context + ToBytes(|value|, 8);
    assert prefixed + value == context + Field(value);
    r := Ok(prefixed + value);
  }

  lemma PowerOfEight()
    ensures Power256(8) == 0x1_0000_0000_0000_0000
  {
    assert Power256(4) == 0x1_0000_0000;
  }

  lemma {:induction false} PairsAppend(ps: seq<Pair>, p: Pair, tag: Bytes)
    ensures Pairs(ps + [p], tag) == Pairs(ps, tag) + One(p, tag)
  {
    if ps == [] {
      assert ps + [p] == [p];
      assert Pairs([p][1..], tag) == [];
    } else {
      PairsAppend(ps[1..], p, tag);
      assert (ps + [p])[1..] == ps[1..] + [p];
      Associate(One(ps[0], tag), Pairs(ps[1..], tag), One(p, tag));
    }
  }

  method FeedOne(context: Bytes, p: Pair, tag: Bytes) returns (r: Result<Bytes>)
    ensures r.Ok? <==> Fits(p.first) && Fits(p.second)
    ensures r.Ok? ==> r.value == context + One(p, tag)
  {
    var first := FeedField(context + tag, p.first);
    if first.Err? { return Err(first.code); }
    r := FeedField(first.value, p.second);
    Associate(context, tag, Field(p.first));
    Associate(context, tag + Field(p.first), Field(p.second));
  }

  method FeedPairs(context: Bytes, ps: seq<Pair>, tag: Bytes) returns (r: Result<Bytes>)
    ensures r.Ok? <==> PairsFit(ps)
    ensures r.Ok? ==> r.value == context + Pairs(ps, tag)
  {
    var hashed := context;
    var i := 0;
    while i < |ps|
      invariant 0 <= i <= |ps|
      invariant PairsFit(ps[..i])
      invariant hashed == context + Pairs(ps[..i], tag)
    {
      var one := FeedOne(hashed, ps[i], tag);
      if one.Err? { return Err(one.code); }
      PairsAppend(ps[..i], ps[i], tag);
      assert ps[..i + 1] == ps[..i] + [ps[i]];
      Associate(context, Pairs(ps[..i], tag), One(ps[i], tag));
      hashed := one.value;
      i := i + 1;
    }
    assert ps[..i] == ps;
    r := Ok(hashed);
  }

  /** `compute_digest`, up to the hash itself. */
  method ComputeStream(domain: Bytes, x: Inputs) returns (r: Result<Bytes>)
    ensures r.Ok? <==> AllFit(x)
    ensures r.Ok? ==> r.value == Stream(domain, x) && Decode(domain, r.value) == Some(x)
  {
    var context := domain + ToBytes(SCHEMA, 4) + CONTRACT_TAG;
    var contract := FeedField(context, x.contract);
    if contract.Err? { return Err(contract.code); }
    var files := FeedPairs(contract.value, x.files, FILE_TAG);
    if files.Err? { return Err(files.code); }
    var inputs := FeedPairs(files.value, x.inputs, INPUT_TAG);
    if inputs.Err? { return Err(inputs.code); }
    Associate(domain, ToBytes(SCHEMA, 4), CONTRACT_TAG);
    Associate(contract.value, Pairs(x.files, FILE_TAG), Pairs(x.inputs, INPUT_TAG));
    Associate(context, Field(x.contract), Pairs(x.files, FILE_TAG) + Pairs(x.inputs, INPUT_TAG));
    DecodeStream(domain, x);
    r := Ok(inputs.value);
  }
}
