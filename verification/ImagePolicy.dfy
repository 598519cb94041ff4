/** The pure policy decision on `.images.env` texts (`docker_observation.rs`): which change of pins an image release
    may make, decided on the lines of both texts and a textual replacement. */
module ImagePolicy {
  import opened Common
  import opened TextLines

  const GATEWAY_KEY := "EDGE_GATEWAY_IMAGE"
  const WARP_KEY := "EDGE_WARP_EGRESS_IMAGE"
  const MESH_KEY := "CLOUDFLARE_MESH_IMAGE"

  const GATEWAY_REPOSITORY := "ghcr.io/iamaman11/vultr-edge-gateway"
  const WARP_REPOSITORY := "ghcr.io/iamaman11/vultr-warp-egress"
  const MESH_REPOSITORY := "docker.io/cloudflare/mesh"

  type Pins = map<string, string>

  function Pin(key: string, value: string): string {
    key + "=" + value
  }

  predicate LowerHex(c: char) {
    '0' <= c <= '9' || 'a' <= c <= 'f'
  }

  predicate Digest(s: string) {
    |s| == 64 && forall i :: 0 <= i < |s| ==> LowerHex(s[i])
  }

  /** `validate_exact_image_ref`. */
  predicate ExactRef(value: string, repository: string) {
    repository + "@sha256:" <= value && Digest(value[|repository| + 8..])
  }

  /** Exactly the repository, `@sha256:` and 64 lower-case hexadecimal digits. */
  lemma ExactRefText(value: string, repository: string)
    ensures ExactRef(value, repository) <==>
      exists digits: string :: value == repository + "@sha256:" + digits && |digits| == 64
        && forall i :: 0 <= i < 64 ==> '0' <= digits[i] <= '9' || 'a' <= digits[i] <= 'f'
  {
    var prefix := repository + "@sha256:";
    assert |prefix| == |repository| + 8;
    if prefix <= value {
      assert value == prefix + value[|prefix|..];
    }
    forall digits: string | value == prefix + digits ensures value[|prefix|..] == digits {
    }
  }

  predicate AllZero(value: string, repository: string) {
    |repository| + 8 <= |value| && forall i :: |repository| + 8 <= i < |value| ==> value[i] == '0'
  }

  predicate RefsValid(m: Pins) {
    && m.Keys == {GATEWAY_KEY, WARP_KEY, MESH_KEY}
    && ExactRef(m[GATEWAY_KEY], GATEWAY_REPOSITORY)
    && ExactRef(m[WARP_KEY], WARP_REPOSITORY)
    && ExactRef(m[MESH_KEY], MESH_REPOSITORY)
  }

  // -------------------------------------------------------------------------
  // Parsing

  /** Position of the first `=`, or the length. */
  function KeyLength(line: string): (n: nat)
    ensures n <= |line|
  {
    if line == "" || line[0] == '=' then 0 else 1 + KeyLength(line[1..])
  }

  lemma {:induction false} KeyLengthMeaning(line: string)
    ensures '=' !in line[..KeyLength(line)]
    ensures KeyLength(line) < |line| ==> line[KeyLength(line)] == '='
  {
    if line != "" && line[0] != '=' {
      KeyLengthMeaning(line[1..]);
      var n := KeyLength(line[1..]);
      assert line[..n + 1] == [line[0]] + line[1..][..n];
    }
  }

  predicate Blank(c: char) {
    c == ' ' || c == '\t' || c == '\n' || c == '\r'
  }

  predicate Trimmed(s: string) {
    s != "" ==> !Blank(s[0]) && !Blank(s[|s| - 1])
  }

  /** A line split at its first `=`. */
  datatype Entry = NoEntry | Entry(key: string, value: string)

  function KeyOf(line: string): string {
    line[..KeyLength(line)]
  }

  function ValueOf(line: string): string {
    if KeyLength(line) < |line| then line[KeyLength(line) + 1..] else ""
  }

  function Split(line: string): Entry {
    if KeyLength(line) < |line| then Entry(KeyOf(line), ValueOf(line)) else NoEntry
  }

  function Entries(lines: seq<string>): (r: seq<Entry>)
    ensures |r| == |lines| && forall i :: 0 <= i < |r| ==> r[i] == Split(lines[i])
  {
    seq(|lines|, i requires 0 <= i < |lines| => Split(lines[i]))
  }

  /** `m` holds exactly the given entries, one a key. */
  ghost predicate Describes(es: seq<Entry>, m: Pins) {
    && (forall i :: 0 <= i < |es| ==> es[i].Entry? && es[i].key in m && m[es[i].key] == es[i].value)
    && (forall i, j :: 0 <= i < j < |es| && es[i].Entry? && es[j].Entry? ==> es[i].key != es[j].key)
    && (forall k :: k in m ==> Mentions(es, k))
  }

  ghost predicate Mentions(es: seq<Entry>, k: string) {
    exists i :: 0 <= i < |es| && es[i].Entry? && es[i].key == k
  }

  lemma SplitAt(line: string, n: nat)
    requires n < |line|
    ensures line == line[..n] + [line[n]] + line[n + 1..]
  {
  }

  lemma HeldLine(line: string)
    requires KeyLength(line) < |line|
    ensures line == Pin(KeyOf(line), ValueOf(line))
  {
    KeyLengthMeaning(line);
    SplitAt(line, KeyLength(line));
  }

  lemma PinKey(key: string, value: string)
    requires '=' !in key
    ensures KeyOf(Pin(key, value)) == key && KeyLength(Pin(key, value)) == |key|
    ensures ValueOf(Pin(key, value)) == value
  {
    var line := Pin(key, value);
    var n := KeyLength(line);
    KeyLengthMeaning(line);
    assert line[|key|] == '=' && forall i :: 0 <= i < |key| ==> line[i] == key[i];
    assert forall i :: 0 <= i < n ==> line[..n][i] == line[i];
    assert line[..|key|] == key;
  }

  lemma KnownKeys()
    ensures '=' !in GATEWAY_KEY && '=' !in WARP_KEY && '=' !in MESH_KEY
    ensures |GATEWAY_KEY| == 18 && |WARP_KEY| == 22 && |MESH_KEY| == 21
    ensures Trimmed(GATEWAY_KEY) && Trimmed(WARP_KEY) && Trimmed(MESH_KEY)
  {
  }

  /** The loop of `parse_vm_release_image_pins` over split lines. */
  method CollectEntries(es: seq<Entry>) returns (r: Result<Pins>)
    ensures r.Ok? ==> Describes(es, r.value)
    ensures r.Err? ==> forall m :: !(Describes(es, m) && RefsValid(m))
  {
    var images: Pins := map[];
    var i := 0;
    while i < |es|
      invariant 0 <= i <= |es|
      invariant Describes(es[..i], images)
    {
      var entry := es[i];
      if entry.NoEntry? {
        return Err("HOST_VM_RELEASE_IMAGE_LINE_INVALID");
      }
      if entry.key == "" || !Trimmed(entry.key) || entry.value == "" || entry.key in images {
        Refused(es, images, i);
        return Err("HOST_VM_RELEASE_IMAGE_LINE_INVALID");
      }
      AddEntry(es[..i], images, entry);
      assert es[..i + 1] == es[..i] + [entry];
      images := images[entry.key := entry.value];
      i := i + 1;
    }
    assert es[..i] == es;
    r := Ok(images);
  }

  /** `parse_vm_release_image_pins`. */
  method ParsePins(text: string) returns (r: Result<Pins>)
    ensures r.Ok? ==> Describes(Entries(Lines(text)), r.value) && RefsValid(r.value)
    ensures r.Err? ==> forall m :: !(Describes(Entries(Lines(text)), m) && RefsValid(m))
  {
    r := CollectEntries(Entries(Lines(text)));
    if r.Ok? && !RefsValid(r.value) {
      forall m | Describes(Entries(Lines(text)), m) ensures m == r.value {
        DescribesOne(Entries(Lines(text)), m, r.value);
      }
      return Err("HOST_VM_RELEASE_IMAGE_KEYS_INVALID");
    }
  }

  lemma Refused(es: seq<Entry>, images: Pins, i: nat)
    requires i < |es| && Describes(es[..i], images) && es[i].Entry?
    requires es[i].key == "" || !Trimmed(es[i].key) || es[i].value == "" || es[i].key in images
    ensures forall m :: !(Describes(es, m) && RefsValid(m))
  {
    KnownKeys();
    if es[i].key in images {
      assert Mentions(es[..i], es[i].key);
      var j :| 0 <= j < i && es[..i][j].Entry? && es[..i][j].key == es[i].key;
      assert es[j].key == es[i].key;
    }
  }

  lemma AddEntry(es: seq<Entry>, m: Pins, e: Entry)
    requires Describes(es, m) && e.Entry? && e.key !in m
    ensures Describes(es + [e], m[e.key := e.value])
  {
    var more, m' := es + [e], m[e.key := e.value];
    forall k | k in m' ensures Mentions(more, k) {
      if k in m {
        assert Mentions(es, k);
        var i :| 0 <= i < |es| && es[i].Entry? && es[i].key == k;
        assert more[i] == es[i];
      } else {
        assert more[|es|] == e;
      }
    }
  }

  lemma DescribesOne(es: seq<Entry>, a: Pins, b: Pins)
    requires Describes(es, a) && Describes(es, b)
    ensures a == b
  {
    DescribesBoth(es, a, b);
    DescribesBoth(es, b, a);
  }

  lemma DescribesBoth(es: seq<Entry>, a: Pins, b: Pins)
    requires Describes(es, a) && Describes(es, b)
    ensures forall k :: k in a ==> k in b && a[k] == b[k]
  {
    forall k | k in a ensures k in b && a[k] == b[k] {
      assert Mentions(es, k);
      var i :| 0 <= i < |es| && es[i].Entry? && es[i].key == k;
    }
  }

  // -------------------------------------------------------------------------
  // Accepted texts, line by line

  /** A text that parses is three lines, one per key. */
  ghost predicate PinLines(lines: seq<string>, m: Pins) {
    && RefsValid(m)
    && |lines| == 3
    && (forall i :: 0 <= i < |lines| ==> KeyOf(lines[i]) in m && lines[i] == Pin(KeyOf(lines[i]), m[KeyOf(lines[i])]))
    && (forall i, j :: 0 <= i < j < |lines| ==> KeyOf(lines[i]) != KeyOf(lines[j]))
  }

  lemma ParsedLines(lines: seq<string>, m: Pins)
    requires Describes(Entries(lines), m) && RefsValid(m)
    ensures PinLines(lines, m)
  {
    var es := Entries(lines);
    DistinctKeys();
    ThreeEntries(es, m, GATEWAY_KEY, WARP_KEY, MESH_KEY);
    forall i | 0 <= i < |lines|
      ensures KeyOf(lines[i]) in m && lines[i] == Pin(KeyOf(lines[i]), m[KeyOf(lines[i])])
    {
      assert es[i].Entry?;
      HeldLine(lines[i]);
    }
    forall i, j | 0 <= i < j < |lines| ensures KeyOf(lines[i]) != KeyOf(lines[j]) {
      assert es[i].Entry? && es[j].Entry?;
    }
  }

  lemma KeyPlain(m: Pins, k: string)
    requires RefsValid(m) && k in m
    ensures '=' !in k
  {
    KnownKeys();
    assert k in m.Keys;
  }

  lemma DistinctKeys()
    ensures GATEWAY_KEY != WARP_KEY && GATEWAY_KEY != MESH_KEY && WARP_KEY != MESH_KEY
  {
    KnownKeys();
  }

  lemma ThreeEntries(es: seq<Entry>, m: Pins, a: string, b: string, c: string)
    requires Describes(es, m) && m.Keys == {a, b, c} && a != b && a != c && b != c
    ensures |es| == 3
  {
    assert Mentions(es, a) && Mentions(es, b) && Mentions(es, c);
    var g :| 0 <= g < |es| && es[g].Entry? && es[g].key == a;
    var w :| 0 <= w < |es| && es[w].Entry? && es[w].key == b;
    var h :| 0 <= h < |es| && es[h].Entry? && es[h].key == c;
    if |es| > 3 {
      OneOfThree(es, m, 0, g, w, h);
      OneOfThree(es, m, 1, g, w, h);
      OneOfThree(es, m, 2, g, w, h);
      OneOfThree(es, m, 3, g, w, h);
    }
  }

  /** Entry `i` has the key of one of the three, so it is one of the three. */
  lemma OneOfThree(es: seq<Entry>, m: Pins, i: nat, g: nat, w: nat, h: nat)
    requires Describes(es, m) && i < |es| && g < |es| && w < |es| && h < |es|
    requires m.Keys == {es[g].key, es[w].key, es[h].key}
    ensures i == g || i == w || i == h
  {
    assert es[i].key in m.Keys;
  }

  lemma EntryOfPin(m: Pins, line: string)
    requires RefsValid(m) && KeyOf(line) in m && line == Pin(KeyOf(line), m[KeyOf(line)])
    ensures Split(line) == Entry(KeyOf(line), m[KeyOf(line)])
  {
    KeyPlain(m, KeyOf(line));
    PinKey(KeyOf(line), m[KeyOf(line)]);
  }

  lemma PinsAreEntries(lines: seq<string>, m: Pins)
    requires PinLines(lines, m)
    ensures Describes(Entries(lines), m)
  {
    var es := Entries(lines);
    forall i | 0 <= i < |es| ensures es[i].Entry? && es[i].key in m && m[es[i].key] == es[i].value {
      EntryOfPin(m, lines[i]);
    }
    EntriesDescribe(es, m);
  }

  lemma EntriesDescribe(es: seq<Entry>, m: Pins)
    requires RefsValid(m) && |es| == 3
    requires forall i :: 0 <= i < |es| ==> es[i].Entry? && es[i].key in m && m[es[i].key] == es[i].value
    requires forall i, j :: 0 <= i < j < |es| ==> es[i].key != es[j].key
    ensures Describes(es, m)
  {
    DistinctKeys();
    forall k | k in m ensures Mentions(es, k) {
      AllKeysMentioned(es, m, GATEWAY_KEY, WARP_KEY, MESH_KEY, k);
    }
  }

  /** Three distinct keys out of three leave none out. */
  lemma AllKeysMentioned(es: seq<Entry>, m: Pins, a: string, b: string, c: string, k: string)
    requires |es| == 3 && m.Keys == {a, b, c} && a != b && a != c && b != c && k in m
    requires forall i :: 0 <= i < |es| ==> es[i].Entry? && es[i].key in m
    requires forall i, j :: 0 <= i < j < |es| ==> es[i].key != es[j].key
    ensures Mentions(es, k)
  {
    assert es[0].key in m.Keys && es[1].key in m.Keys && es[2].key in m.Keys && k in m.Keys;
    assert es[0].key != es[1].key && es[0].key != es[2].key && es[1].key != es[2].key;
  }

  // -------------------------------------------------------------------------
  // References

  lemma RefCharacters(value: string, repository: string, c: char)
    requires ExactRef(value, repository) && c !in repository && c !in "@sha256:" && !LowerHex(c)
    ensures c !in value
  {
    var n := |repository| + 8;
    assert value == (repository + "@sha256:") + value[n..];
    forall i | 0 <= i < |value| ensures value[i] != c {
      if i < |repository| {
        assert value[i] == repository[i];
      } else if i < n {
        assert value[i] == "@sha256:"[i - |repository|];
      } else {
        assert value[i] == value[n..][i - n];
      }
    }
  }

  predicate Separator(c: char) {
    c == '=' || c == '\n' || c == '\r'
  }

  lemma GatewayRepositoryPlain(c: char)
    requires Separator(c)
    ensures c !in GATEWAY_REPOSITORY && c !in "@sha256:"
  {
  }

  lemma WarpRepositoryPlain(c: char)
    requires Separator(c)
    ensures c !in WARP_REPOSITORY && c !in "@sha256:"
  {
  }

  lemma MeshRepositoryPlain(c: char)
    requires Separator(c)
    ensures c !in MESH_REPOSITORY && c !in "@sha256:"
  {
  }

  lemma KeysOneLine()
    ensures OneLine(GATEWAY_KEY) && OneLine(WARP_KEY) && OneLine(MESH_KEY)
  {
  }

  lemma ValueCharacters(m: Pins, k: string, c: char)
    requires RefsValid(m) && k in m && Separator(c)
    ensures c !in m[k]
  {
    assert k in m.Keys;
    if k == GATEWAY_KEY {
      GatewayRepositoryPlain(c);
      RefCharacters(m[k], GATEWAY_REPOSITORY, c);
    } else if k == WARP_KEY {
      WarpRepositoryPlain(c);
      RefCharacters(m[k], WARP_REPOSITORY, c);
    } else {
      MeshRepositoryPlain(c);
      RefCharacters(m[k], MESH_REPOSITORY, c);
    }
  }

  lemma PinOneLine(m: Pins, k: string)
    requires RefsValid(m) && k in m
    ensures OneLine(Pin(k, m[k])) && Pin(k, m[k]) != ""
  {
    ValueCharacters(m, k, '\n');
    ValueCharacters(m, k, '\r');
    KeysOneLine();
    assert k in m.Keys;
  }

  // -------------------------------------------------------------------------
  // A textual replacement of one pin hits its line and no other

  lemma EqualsAt(k: string, v: string, i: nat)
    requires '=' !in k && '=' !in v && i < |Pin(k, v)|
    ensures Pin(k, v)[i] == '=' <==> i == |k|
  {
    var line := Pin(k, v);
    assert i < |k| ==> line[i] == k[i];
    assert i > |k| ==> line[i] == v[i - |k| - 1];
  }

  /** An occurrence of one pin in another lines up their `=`, so the one key ends in the other. */
  lemma NoOccurrence(k: string, v: string, k': string, v': string, i: nat)
    requires '=' !in k && '=' !in v && '=' !in k' && '=' !in v' && !EndsWith(k', k)
    ensures !Occurs(Pin(k', v'), Pin(k, v), i)
  {
    var from, t := Pin(k, v), Pin(k', v');
    if i + |from| <= |t| {
      EqualsAt(k', v', i + |k|);
      EqualsAt(k, v, |k|);
      var found := t[i..i + |from|];
      assert found[|k|] == t[i + |k|];
      if i + |k| == |k'| {
        assert from[..|k|] == k;
        forall j | 0 <= j < |k| ensures found[j] == k'[i + j] {
          assert t[i + j] == k'[i + j];
        }
        assert found[..|k|] == k'[i..];
      }
    }
  }

  lemma KeyNotEnd(k: string, at: string)
    requires k in {GATEWAY_KEY, WARP_KEY, MESH_KEY} && at in {GATEWAY_KEY, WARP_KEY} && k != at
    ensures !EndsWith(k, at)
  {
    if at == GATEWAY_KEY {
      assert at[0] == 'E';
      assert k == WARP_KEY ==> k[|k| - |at|] == '_';
      assert k == MESH_KEY ==> k[|k| - |at|] == 'U';
    }
  }

  /** Replacing the gateway's or WARP's pin by another of the same key hits that whole line and no part of another. */
  lemma ReplacedPin(m: Pins, k: string, at: string, image: string)
    requires RefsValid(m) && k in m && (at == GATEWAY_KEY || at == WARP_KEY)
    ensures Replace(Pin(k, m[k]), Pin(at, m[at]), Pin(at, image)) == if k == at then Pin(at, image) else Pin(k, m[k])
  {
    var from := Pin(at, m[at]);
    if k == at {
      WholeMatch(from, Pin(at, image));
    } else {
      assert k in m.Keys;
      KeyPlain(m, k);
      KeyPlain(m, at);
      KeyNotEnd(k, at);
      ValueCharacters(m, k, '=');
      ValueCharacters(m, at, '=');
      forall i: nat ensures !Occurs(Pin(k, m[k]), from, i) {
        NoOccurrence(at, m[at], k, m[k], i);
      }
      NoMatch(Pin(k, m[k]), from, Pin(at, image));
    }
  }
}
