/** The full journal scan of `host_native.rs`, and the admission decision that rests on it. */
module JournalScan {
  import opened Common
  import AdminJournal

  /** What `symlink_metadata` says about one entry, as far as the scan looks. */
  datatype Entry = Entry(name: string, regular: bool, uid: nat, groupOtherBits: bool)

  /** One item of a directory listing; reading an item or its metadata can fail. */
  datatype Item = Listed(entry: Entry) | Unreadable

  datatype Trouble = NoTrouble | Nonregular | OwnerNotRoot | GroupOtherBitsPresent

  datatype Record = Record(entry: Entry, pending: bool, failure: Trouble)

  datatype Scan = Scan(entries: nat, pending: nat, sample: seq<Record>, firstInvalid: Option<Record>)

  const SAMPLE_LIMIT := 24

  function Failure(e: Entry, uid: nat): Trouble {
    if !e.regular then Nonregular
    else if e.uid != uid then OwnerNotRoot
    else if e.groupOtherBits then GroupOtherBitsPresent
    else NoTrouble
  }

  predicate Trusted(e: Entry, uid: nat) {
    e.regular && e.uid == uid && !e.groupOtherBits
  }

  /** The first trouble that applies is the one reported. */
  lemma FailureIs(e: Entry, uid: nat)
    ensures Failure(e, uid).NoTrouble? <==> e.regular && e.uid == uid && !e.groupOtherBits
    ensures Failure(e, uid).Nonregular? <==> !e.regular
    ensures Failure(e, uid).OwnerNotRoot? <==> e.regular && e.uid != uid
  {
  }

  predicate IsPending(e: Entry) {
    EndsWith(e.name, AdminJournal.PENDING_SUFFIX)
  }

  function ToRecord(e: Entry, uid: nat): Record {
    Record(e, IsPending(e), Failure(e, uid))
  }

  ghost function CountPending(items: seq<Item>): nat {
    if items == [] then 0
    else CountPending(items[..|items| - 1]) +
         (var last := items[|items| - 1]; if last.Listed? && IsPending(last.entry) then 1 else 0)
  }

  ghost predicate AllListed(items: seq<Item>) {
    forall i :: 0 <= i < |items| ==> items[i].Listed?
  }

  /** The first `k` items are listed and trusted. */
  ghost predicate TrustedBelow(items: seq<Item>, uid: nat, k: nat)
    requires k <= |items|
  {
    forall i :: 0 <= i < k ==> items[i].Listed? && Trusted(items[i].entry, uid)
  }

  /** `first` is the record of the first untrusted one of the first `n` items, if there is one. */
  ghost predicate IsFirstInvalid(items: seq<Item>, uid: nat, n: nat, first: Option<Record>, at: nat)
    requires at <= n <= |items|
  {
    && TrustedBelow(items, uid, at)
    && (first.None? <==> at == n)
    && (at < n ==> items[at].Listed? && !Trusted(items[at].entry, uid) && first == Some(ToRecord(items[at].entry, uid)))
  }

  ghost predicate IsSample(items: seq<Item>, uid: nat, sample: seq<Record>) {
    && |sample| <= |items|
    && forall i :: 0 <= i < |sample| ==> items[i].Listed? && sample[i] == ToRecord(items[i].entry, uid)
  }

  /** `scan_native_journal_metadata`: one pass that never stops at the first pending entry. */
  method ScanJournal(items: seq<Item>, uid: nat) returns (r: Result<Scan>, ghost at: nat)
    ensures r.Ok? <==> AllListed(items)
    ensures r.Ok? ==>
      && at <= |items|
      && r.value.entries == |items|
      && r.value.pending == CountPending(items)
      && |r.value.sample| == Min(|items|, SAMPLE_LIMIT)
      && IsSample(items, uid, r.value.sample)
      && IsFirstInvalid(items, uid, |items|, r.value.firstInvalid, at)
  {
    var pending, sample, firstInvalid := 0, [], None;
    var i := 0;
    at := 0;
    while i < |items|
      invariant 0 <= at <= i <= |items|
      invariant forall j :: 0 <= j < i ==> items[j].Listed?
      invariant pending == CountPending(items[..i])
      invariant |sample| == Min(i, SAMPLE_LIMIT)
      invariant IsSample(items, uid, sample)
      invariant IsFirstInvalid(items, uid, i, firstInvalid, at)
    {
      if items[i].Unreadable? {
        return Err("HOST_NATIVE_JOURNAL_UNAVAILABLE"), at;
      }
      assert items[..i + 1][..i] == items[..i];
      var entry := items[i].entry;
      if IsPending(entry) {
        pending := pending + 1;
      }
      var failure := Failure(entry, uid);
      if failure.NoTrouble? && at == i {
        at := at + 1;
      }
      if !failure.NoTrouble? && firstInvalid.None? {
        firstInvalid := Some(ToRecord(entry, uid));
      }
      if |sample| < SAMPLE_LIMIT {
        sample := sample + [ToRecord(entry, uid)];
      }
      i := i + 1;
    }
    assert items[..i] == items;
    r := Ok(Scan(i, pending, sample, firstInvalid));
  }

  ghost predicate AnyUntrusted(items: seq<Item>, uid: nat) {
    exists i :: 0 <= i < |items| && items[i].Listed? && !Trusted(items[i].entry, uid)
  }

  ghost predicate AnyPending(items: seq<Item>) {
    exists i :: 0 <= i < |items| && items[i].Listed? && IsPending(items[i].entry)
  }

  /** The decision as a statement about which entries exist, with no mention of their order. */
  ghost function Decision(items: seq<Item>, uid: nat): Result<bool> {
    if !AllListed(items) then Err("HOST_NATIVE_JOURNAL_UNAVAILABLE")
    else if AnyUntrusted(items, uid) then Err("HOST_NATIVE_JOURNAL_FILE_UNTRUSTED")
    else Ok(AnyPending(items))
  }

  lemma {:induction false} CountedIffPresent(items: seq<Item>)
    ensures CountPending(items) != 0 <==> AnyPending(items)
  {
    if items == [] {
    } else {
      var front, last := items[..|items| - 1], items[|items| - 1];
      CountedIffPresent(front);
      assert items == front + [last];
      assert AnyPending(front) ==> AnyPending(items);
    }
  }

  /** `protected_journal_has_pending_for_uid`. */
  method ProtectedJournalHasPending(items: seq<Item>, uid: nat) returns (r: Result<bool>)
    ensures r == Decision(items, uid)
  {
    var scan, at := ScanJournal(items, uid);
    if scan.Err? {
      assert !AllListed(items);
      return Err("HOST_NATIVE_JOURNAL_UNAVAILABLE");
    }
    CountedIffPresent(items);
    if scan.value.firstInvalid.Some? {
      return Err("HOST_NATIVE_JOURNAL_FILE_UNTRUSTED");
    }
    r := Ok(scan.value.pending != 0);
  }

  lemma OrderFreeOneWay(a: seq<Item>, b: seq<Item>, uid: nat)
    requires multiset(a) == multiset(b)
    ensures AllListed(b) ==> AllListed(a)
    ensures AnyUntrusted(a, uid) ==> AnyUntrusted(b, uid)
    ensures AnyPending(a) ==> AnyPending(b)
  {
    forall i | 0 <= i < |a| ensures a[i] in b {
      assert a[i] in multiset(a);
    }
  }

  /** The decision, its error included, does not depend on directory read order. */
  lemma DecisionIgnoresOrder(a: seq<Item>, b: seq<Item>, uid: nat)
    requires multiset(a) == multiset(b)
    ensures Decision(a, uid) == Decision(b, uid)
  {
    OrderFreeOneWay(a, b, uid);
    OrderFreeOneWay(b, a, uid);
  }

  // -------------------------------------------------------------------------
  // The decision and the state machine's blocking rule

  /** `items` lists exactly the visible entries of `d`, in some order, with the names the agent gives them. */
  ghost predicate Lists(items: seq<Item>, names: seq<AdminJournal.Name>, d: AdminJournal.Directory, uid: nat) {
    && |names| == |items|
    && AllListed(items)
    && (forall n :: n in d.visible <==> n in names)
    && (forall i :: 0 <= i < |items| ==>
          && names[i] in d.visible
          && items[i].entry.name == AdminJournal.Render(names[i])
          && (Trusted(items[i].entry, uid) <==> d.visible[names[i]]))
  }

  lemma SuffixOfConcat(a: string, b: string)
    ensures EndsWith(a + b, b)
  {
  }

  lemma OtherSuffix(a: string, b: string, suffix: string)
    requires 4 <= |b| && 4 <= |suffix|
    requires b[|b| - 4] != suffix[|suffix| - 4]
    ensures !EndsWith(a + b, suffix)
  {
    var s := a + b;
    assert |suffix| <= |s| ==> s[|s| - |suffix|..][|suffix| - 4] == b[|b| - 4];
  }

  /** Only names the executor uses for a BEGIN end in `.pending.pb`, provided operation keys are hexadecimal. */
  lemma RenderedPending(n: AdminJournal.Name)
    requires n.Receipt? ==> !EndsWith(n.key + ".pb", AdminJournal.PENDING_SUFFIX)
    ensures EndsWith(AdminJournal.Render(n), AdminJournal.PENDING_SUFFIX) <==> AdminJournal.IsPendingName(n)
  {
    match n
    case Pending(key) => SuffixOfConcat("admin-" + key, AdminJournal.PENDING_SUFFIX);
    case Terminal(key) => OtherSuffix("admin-" + key, ".terminal.pb", AdminJournal.PENDING_SUFFIX);
    case Receipt(key) =>
    case Capture(key, stderr) =>
      OtherSuffix("admin-" + key, if stderr then ".stderr.bin" else ".stdout.bin", AdminJournal.PENDING_SUFFIX);
    case Foreign(raw) =>
  }

  lemma ListedPending(items: seq<Item>, names: seq<AdminJournal.Name>, d: AdminJournal.Directory, uid: nat, i: nat)
    requires Lists(items, names, d, uid) && HexadecimalReceipts(names) && i < |items|
    ensures IsPending(items[i].entry) <==> AdminJournal.IsPendingName(names[i])
    ensures Trusted(items[i].entry, uid) <==> d.visible[names[i]]
  {
    RenderedPending(names[i]);
  }

  /** A resource receipt `<hex>.pb` never ends in `.pending.pb`. */
  ghost predicate HexadecimalReceipts(names: seq<AdminJournal.Name>) {
    forall i :: 0 <= i < |names| && names[i].Receipt? ==> !EndsWith(names[i].key + ".pb", AdminJournal.PENDING_SUFFIX)
  }

  /** The scan lets an operation through exactly when the state machine's journal is not blocked. */
  lemma ScanDecidesBlocked(items: seq<Item>, names: seq<AdminJournal.Name>, d: AdminJournal.Directory, uid: nat)
    requires Lists(items, names, d, uid) && HexadecimalReceipts(names)
    ensures Decision(items, uid) == Ok(false) <==> !AdminJournal.Blocked(d)
  {
    if AdminJournal.Blocked(d) {
      var n :| n in d.visible && (!d.visible[n] || AdminJournal.IsPendingName(n));
      var i :| 0 <= i < |names| && names[i] == n;
      ListedPending(items, names, d, uid, i);
    }
    if AnyUntrusted(items, uid) {
      var i :| 0 <= i < |items| && !Trusted(items[i].entry, uid);
      ListedPending(items, names, d, uid, i);
    } else if AnyPending(items) {
      var i :| 0 <= i < |items| && IsPending(items[i].entry);
      ListedPending(items, names, d, uid, i);
    }
  }
}
