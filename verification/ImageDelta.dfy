/** The accepted image-policy deltas (`gateway_image_policy_delta`, `application_image_policy_delta`): what they
    return is enough to rebuild the desired text from the installed one. */
module ImageDelta {
  import opened Common
  import opened TextLines
  import opened ImagePolicy

  // -------------------------------------------------------------------------
  // The gateway-only check

  function GatewayPrefix(): string {
    GATEWAY_KEY + "="
  }

  predicate IsGatewayLine(line: string) {
    GatewayPrefix() <= line
  }

  /** What follows the gateway key. */
  function ImageIn(line: string): string {
    if IsGatewayLine(line) then line[|GatewayPrefix()|..] else ""
  }

  predicate NewGateway(image: string, current: string) {
    ExactRef(image, GATEWAY_REPOSITORY) && !AllZero(image, GATEWAY_REPOSITORY) && image != current
  }

  /** A new gateway image is an exact reference, other than the current one and the all-zero one. */
  lemma NewGatewayIff(image: string, current: string)
    ensures NewGateway(image, current) <==>
      && ExactRef(image, GATEWAY_REPOSITORY) && image != current
      && image != GATEWAY_REPOSITORY + "@sha256:" + seq(64, _ => '0')
  {
    var n := |GATEWAY_REPOSITORY| + 8;
    var prefix, zeros := GATEWAY_REPOSITORY + "@sha256:", seq(64, _ => '0');
    if ExactRef(image, GATEWAY_REPOSITORY) {
      assert image == prefix + image[n..];
      assert forall i :: 0 <= i < 64 ==> image[n..][i] == image[n + i];
      if AllZero(image, GATEWAY_REPOSITORY) {
        assert image[n..] == zeros;
      }
      if image == prefix + zeros {
        assert image[n..] == zeros;
      }
    }
  }

  /** One line of the comparison passes. */
  predicate LinePasses(previous: string, next: string, current: string) {
    if IsGatewayLine(previous) then
      && previous == GatewayPrefix() + current
      && IsGatewayLine(next)
      && NewGateway(ImageIn(next), current)
    else previous == next
  }

  /** Only the gateway line, at `at`, differs, and it goes from `current` to `image`. */
  ghost predicate GatewayChange(was: seq<string>, now: seq<string>, current: string, image: string, at: nat) {
    && |was| == 3 && at < |was|
    && was[at] == Pin(GATEWAY_KEY, current)
    && now == was[at := Pin(GATEWAY_KEY, image)]
    && NewGateway(image, current)
    && forall j :: 0 <= j < |was| && j != at ==> !IsGatewayLine(was[j])
  }

  ghost predicate AnyGatewayChange(was: seq<string>, now: seq<string>, current: string) {
    exists image, at :: GatewayChange(was, now, current, image, at)
  }

  /** The loop of `gateway_image_policy_delta` and its final checks. */
  method GatewayDelta(was: seq<string>, now: seq<string>, sameEnd: bool, current: string)
    returns (r: Result<string>, ghost at: nat)
    ensures r.Ok? ==> sameEnd && GatewayChange(was, now, current, r.value, at)
    ensures r.Err? ==> !(sameEnd && AnyGatewayChange(was, now, current))
  {
    at := 0;
    if |was| != |now| || |was| != 3 {
      return Err("HOST_VM_IMAGE_ENV_SHAPE_CHANGED"), at;
    }
    var gateway: Option<string>, count: nat := None, 0;
    var i := 0;
    while i < |was|
      invariant 0 <= i <= |was|
      invariant Scanned(was, now, current, i, count, gateway, at)
    {
      if !LinePasses(was[i], now[i], current) {
        FailingLine(was, now, current, i);
        return Err("HOST_VM_IMAGE_FOREIGN_IMAGE_OR_ENV_CHANGED"), at;
      }
      ScanStep(was, now, current, i, count, gateway, at);
      if IsGatewayLine(was[i]) {
        at := if count == 0 then i else at;
        count := count + 1;
        gateway := Some(ImageIn(now[i]));
      }
      i := i + 1;
    }
    if count != 1 || !sameEnd {
      CountMeaning(was, now, current, count, at);
      return Err("HOST_VM_IMAGE_ENV_NONCANONICAL"), at;
    }
    OneChange(was, now, current, at);
    r := Ok(gateway.value);
  }

  /** Which lines are the gateway's. */
  ghost function Gates(lines: seq<string>): (g: set<nat>)
    ensures forall j: nat :: j in g <==> j < |lines| && IsGatewayLine(lines[j])
  {
    set j: nat | j < |lines| && IsGatewayLine(lines[j])
  }

  /** What `count` and `at` say of the first `n` lines. */
  ghost predicate Counted(gates: set<nat>, n: nat, count: nat, at: nat) {
    && (count == 0 ==> forall j: nat :: j < n ==> j !in gates)
    && (count == 1 ==> OnlyGate(gates, n, at))
    && (count > 1 ==> exists a, b :: a in gates && b in gates && a < b)
  }

  ghost predicate OnlyGate(gates: set<nat>, n: nat, at: nat) {
    at < n && at in gates && forall j: nat :: j < n && j != at ==> j !in gates
  }

  lemma CountStep(gates: set<nat>, n: nat, count: nat, at: nat)
    requires Counted(gates, n, count, at)
    ensures if n in gates then Counted(gates, n + 1, count + 1, if count == 0 then n else at) else Counted(gates, n + 1, count, at)
  {
    if n in gates && count == 1 {
      assert at in gates && at < n;
    }
  }

  ghost predicate AllPass(was: seq<string>, now: seq<string>, current: string, n: nat)
    requires n <= |was| == |now|
  {
    forall j :: 0 <= j < n ==> LinePasses(was[j], now[j], current)
  }

  /** What the loop knows after `n` lines. */
  ghost predicate Scanned(was: seq<string>, now: seq<string>, current: string, n: nat, count: nat, gateway: Option<string>, at: nat)
    requires n <= |was| == |now|
  {
    && AllPass(was, now, current, n)
    && Counted(Gates(was), n, count, at)
    && (count == 1 ==> gateway == Some(ImageIn(now[at])))
  }

  lemma ScanStep(was: seq<string>, now: seq<string>, current: string, n: nat, count: nat, gateway: Option<string>, at: nat)
    requires n < |was| == |now| && Scanned(was, now, current, n, count, gateway, at) && LinePasses(was[n], now[n], current)
    ensures if IsGatewayLine(was[n])
      then Scanned(was, now, current, n + 1, count + 1, Some(ImageIn(now[n])), if count == 0 then n else at)
      else Scanned(was, now, current, n + 1, count, gateway, at)
  {
    CountStep(Gates(was), n, count, at);
  }

  lemma CountMeaning(was: seq<string>, now: seq<string>, current: string, count: nat, at: nat)
    requires |was| == |now| && Counted(Gates(was), |was|, count, at)
    ensures AnyGatewayChange(was, now, current) ==> count == 1
  {
    if AnyGatewayChange(was, now, current) {
      var image, only :| GatewayChange(was, now, current, image, only);
      ChangeCountsOne(was, now, current, image, only, count, at);
    }
  }

  lemma ChangeCountsOne(was: seq<string>, now: seq<string>, current: string, image: string, only: nat, count: nat, at: nat)
    requires GatewayChange(was, now, current, image, only) && Counted(Gates(was), |was|, count, at)
    ensures count == 1
  {
    assert IsGatewayLine(was[only]);
    assert OnlyGate(Gates(was), |was|, only);
  }

  lemma ChangePasses(was: seq<string>, now: seq<string>, current: string, image: string, at: nat, i: nat)
    requires GatewayChange(was, now, current, image, at) && i < |was|
    ensures LinePasses(was[i], now[i], current)
  {
    if i == at {
      assert now[i] == GatewayPrefix() + image;
    }
  }

  lemma FailingLine(was: seq<string>, now: seq<string>, current: string, i: nat)
    requires |was| == |now| && i < |was| && !LinePasses(was[i], now[i], current)
    ensures !AnyGatewayChange(was, now, current)
  {
    if AnyGatewayChange(was, now, current) {
      var image, at :| GatewayChange(was, now, current, image, at);
      ChangePasses(was, now, current, image, at, i);
    }
  }

  lemma OneChange(was: seq<string>, now: seq<string>, current: string, at: nat)
    requires |was| == 3 && |now| == 3 && OnlyGate(Gates(was), 3, at) && AllPass(was, now, current, 3)
    ensures GatewayChange(was, now, current, ImageIn(now[at]), at)
  {
    var image := ImageIn(now[at]);
    assert now[at] == GatewayPrefix() + image;
    forall j | 0 <= j < 3 ensures now[j] == was[at := Pin(GATEWAY_KEY, image)][j] {
      assert LinePasses(was[j], now[j], current);
    }
  }

  // -------------------------------------------------------------------------
  // Rewriting lines

  /** A pins line with the given gateway and WARP images. */
  function RewriteLine(line: string, gateway: string, warp: string): string {
    if KeyOf(line) == GATEWAY_KEY then Pin(GATEWAY_KEY, gateway)
    else if KeyOf(line) == WARP_KEY then Pin(WARP_KEY, warp)
    else line
  }

  /** All lines in their order; every line but the gateway's and WARP's as it was. */
  function Rewrite(lines: seq<string>, gateway: string, warp: string): (r: seq<string>)
    ensures |r| == |lines| && forall i :: 0 <= i < |r| ==> r[i] == RewriteLine(lines[i], gateway, warp)
  {
    seq(|lines|, i requires 0 <= i < |lines| => RewriteLine(lines[i], gateway, warp))
  }

  ghost predicate IsPinOf(line: string, m: Pins) {
    KeyOf(line) in m && line == Pin(KeyOf(line), m[KeyOf(line)])
  }

  /** A desired line with WARP set back. */
  function Normal(line: string, warp: string): string {
    if KeyOf(line) == WARP_KEY then Pin(WARP_KEY, warp) else line
  }

  lemma NormalizedLines(desired: string, req: Pins, warp: string)
    requires PinLines(Lines(desired), req) && warp != "" && OneLine(Pin(WARP_KEY, warp))
    ensures var t := Replace(desired, Pin(WARP_KEY, req[WARP_KEY]), Pin(WARP_KEY, warp));
      && |Lines(t)| == |Lines(desired)|
      && (forall i :: 0 <= i < |Lines(t)| ==> Lines(t)[i] == Normal(Lines(desired)[i], warp))
      && (EndsInNewline(t) <==> EndsInNewline(desired))
  {
    PinOneLine(req, WARP_KEY);
    ReplaceLines(desired, Pin(WARP_KEY, req[WARP_KEY]), Pin(WARP_KEY, warp));
    var lines := Lines(desired);
    forall i | 0 <= i < |lines|
      ensures Replace(lines[i], Pin(WARP_KEY, req[WARP_KEY]), Pin(WARP_KEY, warp)) == Normal(lines[i], warp)
    {
      ReplacedPin(req, KeyOf(lines[i]), WARP_KEY, warp);
    }
  }

  /** Setting WARP back makes a desired line the installed one with its gateway rewritten exactly when the desired
      line is the installed one rewritten. */
  lemma LineAgrees(a: string, d: string, prev: Pins, req: Pins, g: string)
    requires RefsValid(prev) && RefsValid(req) && IsPinOf(a, prev) && IsPinOf(d, req)
    requires prev[MESH_KEY] == req[MESH_KEY]
    ensures Normal(d, prev[WARP_KEY]) == RewriteLine(a, g, prev[WARP_KEY]) <==> d == RewriteLine(a, g, req[WARP_KEY])
    ensures KeyOf(a) == WARP_KEY ==> RewriteLine(a, g, prev[WARP_KEY]) == a
  {
    DistinctKeys();
    KnownKeys();
    PinKey(WARP_KEY, prev[WARP_KEY]);
    PinKey(WARP_KEY, req[WARP_KEY]);
    PinKey(GATEWAY_KEY, g);
  }

  // -------------------------------------------------------------------------
  // The whole delta

  /** The two texts parse and differ by a new gateway image and perhaps WARP's, line by line. */
  ghost predicate Reconstructs(installed: string, desired: string, prev: Pins, req: Pins) {
    && PinLines(Lines(installed), prev)
    && PinLines(Lines(desired), req)
    && NewGateway(req[GATEWAY_KEY], prev[GATEWAY_KEY])
    && Lines(desired) == Rewrite(Lines(installed), req[GATEWAY_KEY], req[WARP_KEY])
    && (EndsInNewline(installed) <==> EndsInNewline(desired))
  }

  /** `application_image_policy_delta`. */
  method ApplicationDelta(installed: string, desired: string)
    returns (r: Result<(string, Option<string>)>, ghost prev: Pins, ghost req: Pins)
    ensures r.Ok? ==> Reconstructs(installed, desired, prev, req)
    ensures r.Ok? ==> r.value == (req[GATEWAY_KEY], if req[WARP_KEY] != prev[WARP_KEY] then Some(req[WARP_KEY]) else None)
    ensures r.Ok? ==> prev[MESH_KEY] == req[MESH_KEY]
    ensures r.Err? ==> forall p, q :: !Reconstructs(installed, desired, p, q)
  {
    prev, req := map[], map[];
    var previous := ParsePins(installed);
    if previous.Err? {
      NotParsed(installed);
      return Err(previous.code), prev, req;
    }
    var requested := ParsePins(desired);
    if requested.Err? {
      NotParsed(desired);
      return Err(requested.code), prev, req;
    }
    prev, req := previous.value, requested.value;
    OnlyThese(installed, desired, prev, req);
    if requested.value[MESH_KEY] != previous.value[MESH_KEY] {
      MeshKept(installed, desired, prev, req);
      return Err("HOST_VM_IMAGE_FOREIGN_IMAGE_OR_ENV_CHANGED"), prev, req;
    }
    var targetWarp, oldWarp := requested.value[WARP_KEY], previous.value[WARP_KEY];
    var normalized := Replace(desired, Pin(WARP_KEY, targetWarp), Pin(WARP_KEY, oldWarp));
    DeltaIffReconstructs(installed, desired, prev, req);
    var gateway, at := GatewayDelta(
      Lines(installed), Lines(normalized), EndsInNewline(installed) == EndsInNewline(normalized), previous.value[GATEWAY_KEY]);
    if gateway.Err? {
      return Err(gateway.code), prev, req;
    }
    r := Ok((gateway.value, if targetWarp != oldWarp then Some(targetWarp) else None));
  }

  lemma NotParsed(text: string)
    requires forall m :: !(Describes(Entries(Lines(text)), m) && RefsValid(m))
    ensures forall m :: !PinLines(Lines(text), m)
  {
    forall m ensures !PinLines(Lines(text), m) {
      if PinLines(Lines(text), m) {
        PinsAreEntries(Lines(text), m);
      }
    }
  }

  lemma OnlyThese(installed: string, desired: string, prev: Pins, req: Pins)
    requires Describes(Entries(Lines(installed)), prev) && RefsValid(prev)
    requires Describes(Entries(Lines(desired)), req) && RefsValid(req)
    ensures PinLines(Lines(installed), prev) && PinLines(Lines(desired), req)
    ensures forall p, q :: Reconstructs(installed, desired, p, q) ==> p == prev && q == req
  {
    ParsedLines(Lines(installed), prev);
    ParsedLines(Lines(desired), req);
    forall p, q | Reconstructs(installed, desired, p, q) ensures p == prev && q == req {
      PinsAreEntries(Lines(installed), p);
      PinsAreEntries(Lines(desired), q);
      DescribesOne(Entries(Lines(installed)), p, prev);
      DescribesOne(Entries(Lines(desired)), q, req);
    }
  }

  /** Index of the line of a key. */
  lemma LineOf(lines: seq<string>, m: Pins, k: string) returns (i: nat)
    requires PinLines(lines, m) && k in m
    ensures i < |lines| && KeyOf(lines[i]) == k && lines[i] == Pin(k, m[k])
  {
    PinsAreEntries(lines, m);
    assert Mentions(Entries(lines), k);
    var j :| 0 <= j < |Entries(lines)| && Entries(lines)[j].Entry? && Entries(lines)[j].key == k;
    i := j;
  }

  lemma MeshKept(installed: string, desired: string, prev: Pins, req: Pins)
    requires PinLines(Lines(installed), prev) && PinLines(Lines(desired), req)
    ensures Reconstructs(installed, desired, prev, req) ==> prev[MESH_KEY] == req[MESH_KEY]
  {
    if Reconstructs(installed, desired, prev, req) {
      DistinctKeys();
      var i := LineOf(Lines(installed), prev, MESH_KEY);
      assert Lines(desired)[i] == RewriteLine(Lines(installed)[i], req[GATEWAY_KEY], req[WARP_KEY]);
      KeyPlain(prev, MESH_KEY);
      PinKey(MESH_KEY, prev[MESH_KEY]);
      PinKey(MESH_KEY, req[MESH_KEY]);
    }
  }

  lemma GatewayLines(lines: seq<string>, m: Pins, i: nat)
    requires PinLines(lines, m) && i < |lines|
    ensures IsGatewayLine(lines[i]) <==> KeyOf(lines[i]) == GATEWAY_KEY
  {
    var k := KeyOf(lines[i]);
    KnownKeys();
    KeyPlain(m, k);
    assert k in m.Keys;
    if k != GATEWAY_KEY {
      assert lines[i][18] == k[18] && GatewayPrefix()[18] == '=';
    }
  }

  /** The gateway-only check on the normalised text accepts, and returns the requested gateway, exactly when the
      desired text is the installed one rewritten. */
  lemma DeltaIffReconstructs(installed: string, desired: string, prev: Pins, req: Pins)
    requires PinLines(Lines(installed), prev) && PinLines(Lines(desired), req) && prev[MESH_KEY] == req[MESH_KEY]
    ensures var t := Replace(desired, Pin(WARP_KEY, req[WARP_KEY]), Pin(WARP_KEY, prev[WARP_KEY]));
      && (EndsInNewline(t) <==> EndsInNewline(desired))
      && (forall image, at :: GatewayChange(Lines(installed), Lines(t), prev[GATEWAY_KEY], image, at) ==> image == req[GATEWAY_KEY])
      && ((AnyGatewayChange(Lines(installed), Lines(t), prev[GATEWAY_KEY]) && (EndsInNewline(installed) <==> EndsInNewline(t)))
          ==> Reconstructs(installed, desired, prev, req))
      && (Reconstructs(installed, desired, prev, req) ==> AnyGatewayChange(Lines(installed), Lines(t), prev[GATEWAY_KEY]))
  {
    PinOneLine(prev, WARP_KEY);
    var t := Replace(desired, Pin(WARP_KEY, req[WARP_KEY]), Pin(WARP_KEY, prev[WARP_KEY]));
    assert prev[WARP_KEY] != "";
    NormalizedLines(desired, req, prev[WARP_KEY]);
    forall image, at | GatewayChange(Lines(installed), Lines(t), prev[GATEWAY_KEY], image, at)
      ensures image == req[GATEWAY_KEY] && Lines(desired) == Rewrite(Lines(installed), req[GATEWAY_KEY], req[WARP_KEY])
    {
      ChangeReconstructs(Lines(installed), Lines(desired), Lines(t), prev, req, image, at);
    }
    if Reconstructs(installed, desired, prev, req) {
      var at := LineOf(Lines(installed), prev, GATEWAY_KEY);
      ReconstructionChanges(Lines(installed), Lines(desired), Lines(t), prev, req, at);
    }
  }

  ghost predicate IsNormal(ds: seq<string>, ts: seq<string>, warp: string) {
    |ts| == |ds| && forall i :: 0 <= i < |ts| ==> ts[i] == Normal(ds[i], warp)
  }

  lemma ChangeReconstructs(xs: seq<string>, ds: seq<string>, ts: seq<string>, prev: Pins, req: Pins, image: string, at: nat)
    requires PinLines(xs, prev) && PinLines(ds, req) && prev[MESH_KEY] == req[MESH_KEY] && IsNormal(ds, ts, prev[WARP_KEY])
    requires GatewayChange(xs, ts, prev[GATEWAY_KEY], image, at)
    ensures image == req[GATEWAY_KEY] && ds == Rewrite(xs, req[GATEWAY_KEY], req[WARP_KEY])
  {
    GatewayImage(ds[at], ts[at], prev, req, image);
    GatewayLines(xs, prev, at);
    forall i | 0 <= i < |xs| ensures ds[i] == RewriteLine(xs[i], req[GATEWAY_KEY], req[WARP_KEY]) {
      GatewayLines(xs, prev, i);
      LineAgrees(xs[i], ds[i], prev, req, req[GATEWAY_KEY]);
    }
  }

  lemma GatewayImage(d: string, t: string, prev: Pins, req: Pins, image: string)
    requires RefsValid(prev) && RefsValid(req) && IsPinOf(d, req) && t == Normal(d, prev[WARP_KEY])
    requires t == Pin(GATEWAY_KEY, image)
    ensures image == req[GATEWAY_KEY]
  {
    DistinctKeys();
    KnownKeys();
    PinKey(GATEWAY_KEY, image);
    PinKey(WARP_KEY, prev[WARP_KEY]);
    PinKey(GATEWAY_KEY, req[GATEWAY_KEY]);
  }

  lemma ReconstructionChanges(xs: seq<string>, ds: seq<string>, ts: seq<string>, prev: Pins, req: Pins, at: nat)
    requires PinLines(xs, prev) && PinLines(ds, req) && prev[MESH_KEY] == req[MESH_KEY] && IsNormal(ds, ts, prev[WARP_KEY])
    requires ds == Rewrite(xs, req[GATEWAY_KEY], req[WARP_KEY]) && NewGateway(req[GATEWAY_KEY], prev[GATEWAY_KEY])
    requires at < |xs| && KeyOf(xs[at]) == GATEWAY_KEY
    ensures GatewayChange(xs, ts, prev[GATEWAY_KEY], req[GATEWAY_KEY], at)
  {
    forall i | 0 <= i < |xs|
      ensures ts[i] == xs[at := Pin(GATEWAY_KEY, req[GATEWAY_KEY])][i]
      ensures i != at ==> !IsGatewayLine(xs[i])
    {
      GatewayLines(xs, prev, i);
      LineAgrees(xs[i], ds[i], prev, req, req[GATEWAY_KEY]);
    }
  }

  // -------------------------------------------------------------------------
  // Bytes

  /** The installed bytes with the two old image values replaced by the new ones and nothing else touched. */
  function Substituted(installed: string, prev: Pins, req: Pins): string
    requires RefsValid(prev) && RefsValid(req)
  {
    var gateway := Replace(installed, Pin(GATEWAY_KEY, prev[GATEWAY_KEY]), Pin(GATEWAY_KEY, req[GATEWAY_KEY]));
    Replace(gateway, Pin(WARP_KEY, prev[WARP_KEY]), Pin(WARP_KEY, req[WARP_KEY]))
  }

  lemma SubstitutedLine(line: string, prev: Pins, req: Pins)
    requires RefsValid(prev) && RefsValid(req) && IsPinOf(line, prev)
    ensures Substituted(line, prev, req) == RewriteLine(line, req[GATEWAY_KEY], req[WARP_KEY])
  {
    var k, m := KeyOf(line), prev[GATEWAY_KEY := req[GATEWAY_KEY]];
    DistinctKeys();
    ReplacedPin(prev, k, GATEWAY_KEY, req[GATEWAY_KEY]);
    ReplacedPin(m, k, WARP_KEY, req[WARP_KEY]);
  }

  lemma SubstitutedText(installed: string, prev: Pins, req: Pins)
    requires PinLines(Lines(installed), prev) && RefsValid(req)
    ensures Lines(Substituted(installed, prev, req)) == Rewrite(Lines(installed), req[GATEWAY_KEY], req[WARP_KEY])
    ensures Endings(Substituted(installed, prev, req)) == Endings(installed)
  {
    PinOneLine(prev, GATEWAY_KEY);
    PinOneLine(prev, WARP_KEY);
    PinOneLine(req, GATEWAY_KEY);
    PinOneLine(req, WARP_KEY);
    var g, g' := Pin(GATEWAY_KEY, prev[GATEWAY_KEY]), Pin(GATEWAY_KEY, req[GATEWAY_KEY]);
    var w, w' := Pin(WARP_KEY, prev[WARP_KEY]), Pin(WARP_KEY, req[WARP_KEY]);
    ReplaceLines(installed, g, g');
    ReplaceKeepsEndings(installed, g, g');
    ReplaceLines(Replace(installed, g, g'), w, w');
    ReplaceKeepsEndings(Replace(installed, g, g'), w, w');
    var lines := Lines(installed);
    forall i | 0 <= i < |lines|
      ensures Replace(Replace(lines[i], g, g'), w, w') == RewriteLine(lines[i], req[GATEWAY_KEY], req[WARP_KEY])
    {
      SubstitutedLine(lines[i], prev, req);
    }
  }

  /** The comparison is by lines, so an accepted text may end its lines differently: it is byte for byte the installed
      text with its image values replaced exactly when every line ends as it did. */
  lemma ByteExactIff(installed: string, desired: string, prev: Pins, req: Pins)
    requires Reconstructs(installed, desired, prev, req)
    ensures desired == Substituted(installed, prev, req) <==> Endings(desired) == Endings(installed)
  {
    SubstitutedText(installed, prev, req);
    if Endings(desired) == Endings(installed) {
      LinesAndEndings(desired, Substituted(installed, prev, req));
    }
  }

  function Ref(repository: string, c: char): string {
    repository + "@sha256:" + seq(64, _ => c)
  }

  lemma RefExact(repository: string, c: char)
    requires LowerHex(c)
    ensures ExactRef(Ref(repository, c), repository)
    ensures c != '0' ==> !AllZero(Ref(repository, c), repository)
  {
    var n := |repository| + 8;
    assert Ref(repository, c)[n..] == seq(64, _ => c);
    assert Ref(repository, c)[n] == c;
  }

  function PinText(gateway: string, warp: string, mesh: string): seq<string> {
    [Pin(GATEWAY_KEY, gateway), Pin(WARP_KEY, warp), Pin(MESH_KEY, mesh)]
  }

  function PinMap(gateway: string, warp: string, mesh: string): Pins {
    map[GATEWAY_KEY := gateway, WARP_KEY := warp, MESH_KEY := mesh]
  }

  lemma PinTextLines(g: string, w: string, h: string)
    requires RefsValid(PinMap(g, w, h))
    ensures PinLines(PinText(g, w, h), PinMap(g, w, h))
    ensures forall i :: 0 <= i < 3 ==> OneLine(PinText(g, w, h)[i])
  {
    DistinctKeys();
    KnownKeys();
    var m := PinMap(g, w, h);
    PinKey(GATEWAY_KEY, g);
    PinKey(WARP_KEY, w);
    PinKey(MESH_KEY, h);
    PinOneLine(m, GATEWAY_KEY);
    PinOneLine(m, WARP_KEY);
    PinOneLine(m, MESH_KEY);
  }

  lemma ConcretePins(g: char)
    requires LowerHex(g)
    ensures RefsValid(PinMap(Ref(GATEWAY_REPOSITORY, g), Ref(WARP_REPOSITORY, 'b'), Ref(MESH_REPOSITORY, 'c')))
  {
    DistinctKeys();
    RefExact(GATEWAY_REPOSITORY, g);
    RefExact(WARP_REPOSITORY, 'b');
    RefExact(MESH_REPOSITORY, 'c');
  }

  /** The concrete pins with gateway digest `g`, in plain lines. */
  function PlainText(g: char): string {
    Unlines(ConcreteLines(g), true)
  }

  /** The same lines, the first ended by a carriage return and a newline. */
  function CarriageText(g: char): string {
    ConcreteLines(g)[0] + "\r" + "\n" + Unlines(ConcreteLines(g)[1..], true)
  }

  function ConcreteLines(g: char): (r: seq<string>)
    ensures |r| == 3
  {
    PinText(Ref(GATEWAY_REPOSITORY, g), Ref(WARP_REPOSITORY, 'b'), Ref(MESH_REPOSITORY, 'c'))
  }

  function ConcreteMap(g: char): Pins {
    PinMap(Ref(GATEWAY_REPOSITORY, g), Ref(WARP_REPOSITORY, 'b'), Ref(MESH_REPOSITORY, 'c'))
  }

  lemma ConcreteTexts(g: char)
    requires LowerHex(g)
    ensures PinLines(ConcreteLines(g), ConcreteMap(g))
    ensures Lines(PlainText(g)) == ConcreteLines(g) && EndsInNewline(PlainText(g))
    ensures Lines(CarriageText(g)) == ConcreteLines(g) && EndsInNewline(CarriageText(g))
  {
    ConcretePins(g);
    PinTextLines(Ref(GATEWAY_REPOSITORY, g), Ref(WARP_REPOSITORY, 'b'), Ref(MESH_REPOSITORY, 'c'));
    var lines := ConcreteLines(g);
    LinesOfUnlines(lines);
    CarriageLines(lines[0], lines[1..]);
    assert [lines[0]] + lines[1..] == lines;
  }

  lemma ConcreteOneLine(g: char)
    requires LowerHex(g)
    ensures OneLine(ConcreteLines(g)[0])
  {
    ConcretePins(g);
    PinTextLines(Ref(GATEWAY_REPOSITORY, g), Ref(WARP_REPOSITORY, 'b'), Ref(MESH_REPOSITORY, 'c'));
  }

  lemma PlainEnding(g: char)
    requires LowerHex(g)
    ensures |Endings(PlainText(g))| > 0 && Endings(PlainText(g))[0] == "\n"
  {
    var lines := ConcreteLines(g);
    ConcreteOneLine(g);
    EndingsOfFirst(lines[0], Unlines(lines[1..], true));
  }

  lemma CarriageEnding(g: char)
    requires LowerHex(g)
    ensures |Endings(CarriageText(g))| > 0 && Endings(CarriageText(g))[0] == "\r\n"
  {
    var first := ConcreteLines(g)[0] + "\r";
    ConcreteOneLine(g);
    EndingsOfFirst(first, Unlines(ConcreteLines(g)[1..], true));
    assert |Strip(first)| < |first|;
  }

  /** The first terminator tells a plain text from one with a carriage return. */
  lemma FirstEndings(g: char, h: char)
    requires LowerHex(g) && LowerHex(h)
    ensures Endings(PlainText(g)) != Endings(CarriageText(h))
  {
    PlainEnding(g);
    CarriageEnding(h);
  }

  /** Two texts with these lines differ by the gateway image only, however their lines end. */
  lemma GatewayOnly(installed: string, desired: string, a: string, d: string, w: string, h: string)
    requires Lines(installed) == PinText(a, w, h) && Lines(desired) == PinText(d, w, h)
    requires EndsInNewline(installed) && EndsInNewline(desired)
    requires PinLines(PinText(a, w, h), PinMap(a, w, h)) && PinLines(PinText(d, w, h), PinMap(d, w, h)) && NewGateway(d, a)
    ensures Reconstructs(installed, desired, PinMap(a, w, h), PinMap(d, w, h))
  {
    DistinctKeys();
    RewrittenText(a, d, w, h);
  }

  lemma ConcreteDelta(installed: string, desired: string)
    requires Lines(installed) == ConcreteLines('a') && Lines(desired) == ConcreteLines('d')
    requires EndsInNewline(installed) && EndsInNewline(desired)
    ensures Reconstructs(installed, desired, ConcreteMap('a'), ConcreteMap('d'))
  {
    ConcreteTexts('a');
    ConcreteTexts('d');
    DifferentGateways();
    GatewayOnly(installed, desired,
      Ref(GATEWAY_REPOSITORY, 'a'), Ref(GATEWAY_REPOSITORY, 'd'), Ref(WARP_REPOSITORY, 'b'), Ref(MESH_REPOSITORY, 'c'));
  }

  /** Accepted although a byte outside the image values is added: one line gains a carriage return. */
  lemma CarriageReturnAccepted() returns (installed: string, desired: string, prev: Pins, req: Pins)
    ensures Reconstructs(installed, desired, prev, req) && desired != Substituted(installed, prev, req)
    ensures installed == PlainText('a') && desired == CarriageText('d')
  {
    installed, desired, prev, req := PlainText('a'), CarriageText('d'), ConcreteMap('a'), ConcreteMap('d');
    ConcreteTexts('a');
    ConcreteTexts('d');
    ConcreteDelta(installed, desired);
    FirstEndings('a', 'd');
    ByteExactIff(installed, desired, prev, req);
  }

  /** Accepted although such a byte is lost: one line loses its carriage return. */
  lemma CarriageReturnDropped() returns (installed: string, desired: string, prev: Pins, req: Pins)
    ensures Reconstructs(installed, desired, prev, req) && desired != Substituted(installed, prev, req)
    ensures installed == CarriageText('a') && desired == PlainText('d')
  {
    installed, desired, prev, req := CarriageText('a'), PlainText('d'), ConcreteMap('a'), ConcreteMap('d');
    ConcreteTexts('a');
    ConcreteTexts('d');
    ConcreteDelta(installed, desired);
    FirstEndings('d', 'a');
    ByteExactIff(installed, desired, prev, req);
  }

  lemma DifferentGateways()
    ensures NewGateway(Ref(GATEWAY_REPOSITORY, 'd'), Ref(GATEWAY_REPOSITORY, 'a'))
  {
    RefExact(GATEWAY_REPOSITORY, 'd');
    var n := |GATEWAY_REPOSITORY| + 8;
    assert Ref(GATEWAY_REPOSITORY, 'd')[n] == 'd' && Ref(GATEWAY_REPOSITORY, 'a')[n] == 'a';
  }

  lemma CarriageLines(first: string, rest: seq<string>)
    requires OneLine(first) && rest != [] && forall i :: 0 <= i < |rest| ==> OneLine(rest[i])
    ensures var t := first + "\r" + "\n" + Unlines(rest, true);
      Lines(t) == [first] + rest && EndsInNewline(t)
  {
    LinesOfUnlines(rest);
    LinesOfFirst(first + "\r", Unlines(rest, true));
  }

  lemma RewrittenText(a: string, d: string, w: string, h: string)
    ensures Rewrite(PinText(a, w, h), d, w) == PinText(d, w, h)
  {
    DistinctKeys();
    KnownKeys();
    PinKey(GATEWAY_KEY, a);
    PinKey(WARP_KEY, w);
    PinKey(MESH_KEY, h);
  }
}
