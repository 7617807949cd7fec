/** Packaged AI assets: the full inspection that builds a snapshot, the targeted lookup that
    verifies one asset, and the digest cache both share. */
module BundledAssets {
  import opened Common

  /** A manifest record. `otherFieldsValid` stands for the field checks of record_is_valid
      that play no part in selection; `hostMatches` for the platform and architecture test. */
  datatype Record = Record(
    id: string,
    capability: string,
    kind: string,
    modelId: Option<string>,
    modelCard: Option<string>,
    relativePath: string,
    licenseFile: string,
    sha256: string,
    bytes: nat,
    contextTokens: Option<nat>,
    otherFieldsValid: bool,
    hostMatches: bool)

  datatype Verified = Verified(path: string, sha256: string, bytes: nat, modelId: Option<string>, contextTokens: Option<nat>)

  datatype Outcome = Ready(asset: Verified) | Failed(state: string, code: string)

  datatype Inspected = Inspected(record: Record, outcome: Outcome)

  // ---- The file system ----

  datatype FileKey = FileKey(path: string, bytes: nat, modifiedMs: nat)

  datatype Metadata = Metadata(bytes: nat, modifiedMs: nat, executable: bool)

  /** `contained` maps relative paths to the canonical paths of regular files inside the root;
      the digest of a file's content is fixed by its path, size and modification time, and an
      absent digest is an unreadable file. */
  datatype Files = Files(contained: map<string, string>, metadata: map<string, Metadata>, digests: map<FileKey, string>)

  function LowerChar(c: char): char {
    if 'A' <= c <= 'Z' then (c as int + 32) as char else c
  }

  function Lower(s: string): string {
    seq(|s|, i requires 0 <= i < |s| => LowerChar(s[i]))
  }

  function Digest(files: Files, path: string, bytes: nat, modifiedMs: nat): Option<string> {
    var key := FileKey(path, bytes, modifiedMs);
    if key in files.digests then Some(files.digests[key]) else None
  }

  predicate NoticesPresent(files: Files, r: Record) {
    && r.licenseFile in files.contained
    && (r.kind == "model" ==> r.modelCard.Some? && r.modelCard.value in files.contained)
  }

  /** inspect_asset, given the digest of the file (read afresh or from the cache). */
  function Judge(files: Files, r: Record, digest: Option<string>): Outcome
    requires r.relativePath in files.contained && NoticesPresent(files, r)
    requires files.contained[r.relativePath] in files.metadata
  {
    if digest.None? then Failed("corrupt", "BUNDLED_AI_ASSET_UNREADABLE")
    else if Lower(digest.value) != Lower(r.sha256) then Failed("corrupt", "BUNDLED_AI_ASSET_HASH_MISMATCH")
    else Ready(Verified(files.contained[r.relativePath], digest.value, r.bytes, r.modelId, r.contextTokens))
  }

  function InspectAsset(files: Files, r: Record): Outcome {
    if r.relativePath !in files.contained then Failed("missing", "BUNDLED_AI_ASSET_MISSING")
    else if !NoticesPresent(files, r) then Failed("repair-required", "BUNDLED_AI_NOTICE_MISSING")
    else
      var path := files.contained[r.relativePath];
      if path !in files.metadata then Failed("missing", "BUNDLED_AI_ASSET_MISSING")
      else
        var m := files.metadata[path];
        if r.kind == "runtime" && !m.executable then Failed("incompatible", "BUNDLED_AI_RUNTIME_NOT_EXECUTABLE")
        else if m.bytes != r.bytes then Failed("corrupt", "BUNDLED_AI_ASSET_SIZE_MISMATCH")
        else Judge(files, r, Digest(files, path, m.bytes, m.modifiedMs))
  }

  // ---- What a verdict on an asset means ----

  predicate SameLetter(c: char, d: char) {
    c == d || ('A' <= c <= 'Z' && d as int == c as int + 32) || ('A' <= d <= 'Z' && c as int == d as int + 32)
  }

  /** Equal up to the case of ASCII letters. */
  predicate SameText(a: string, b: string) {
    |a| == |b| && forall k | 0 <= k < |a| :: SameLetter(a[k], b[k])
  }

  lemma LowerIgnoresCase(a: string, b: string)
    ensures Lower(a) == Lower(b) <==> SameText(a, b)
  {
    if Lower(a) == Lower(b) {
      forall k | 0 <= k < |a|
        ensures |a| == |b| && SameLetter(a[k], b[k])
      {
        assert |Lower(a)| == |Lower(b)| && Lower(a)[k] == Lower(b)[k];
      }
    }
  }

  /** The asset's file is in the bundle with its notices, and can be looked at. */
  predicate Present(files: Files, r: Record) {
    && r.relativePath in files.contained && r.licenseFile in files.contained
    && (r.kind == "model" ==> r.modelCard.Some? && r.modelCard.value in files.contained)
    && files.contained[r.relativePath] in files.metadata
  }

  /** It is of the recorded size, and can be run if it is a runtime. */
  predicate Fits(files: Files, r: Record)
    requires Present(files, r)
  {
    var m := files.metadata[files.contained[r.relativePath]];
    m.bytes == r.bytes && (r.kind == "runtime" ==> m.executable)
  }

  function KeyOf(files: Files, r: Record): FileKey
    requires Present(files, r)
  {
    var path := files.contained[r.relativePath];
    FileKey(path, files.metadata[path].bytes, files.metadata[path].modifiedMs)
  }

  /** An asset is ready if and only if its file and notices are there, it fits its record, and
      the digest of that very file is the recorded one; and it is reported with that file's path
      and digest and the record's size and model. */
  lemma ReadyExactly(files: Files, r: Record)
    ensures InspectAsset(files, r).Ready? <==>
              && Present(files, r) && Fits(files, r)
              && KeyOf(files, r) in files.digests && SameText(files.digests[KeyOf(files, r)], r.sha256)
    ensures InspectAsset(files, r).Ready? ==>
              var a := InspectAsset(files, r).asset;
              && a.path == files.contained[r.relativePath] && a.sha256 == files.digests[KeyOf(files, r)]
              && a.bytes == r.bytes && a.modelId == r.modelId && a.contextTokens == r.contextTokens
  {
    if Present(files, r) && KeyOf(files, r) in files.digests {
      LowerIgnoresCase(files.digests[KeyOf(files, r)], r.sha256);
    }
  }

  predicate FailsWith(outcome: Outcome, state: string, code: string) {
    outcome == Failed(state, code)
  }

  /** Each failure has its one cause: the first of these tests that the asset fails. */
  lemma FailuresExactly(files: Files, r: Record)
    ensures var o := InspectAsset(files, r);
            var contained := r.relativePath in files.contained;
            var noted := r.licenseFile in files.contained
                         && (r.kind == "model" ==> r.modelCard.Some? && r.modelCard.value in files.contained);
            && (FailsWith(o, "missing", "BUNDLED_AI_ASSET_MISSING") <==> !contained || (noted && !Present(files, r)))
            && (FailsWith(o, "repair-required", "BUNDLED_AI_NOTICE_MISSING") <==> contained && !noted)
    ensures Present(files, r) ==>
              var o := InspectAsset(files, r);
              var m := files.metadata[files.contained[r.relativePath]];
              var stuck := r.kind == "runtime" && !m.executable;
              var key := KeyOf(files, r);
              && (FailsWith(o, "incompatible", "BUNDLED_AI_RUNTIME_NOT_EXECUTABLE") <==> stuck)
              && (FailsWith(o, "corrupt", "BUNDLED_AI_ASSET_SIZE_MISMATCH") <==> !stuck && m.bytes != r.bytes)
              && (FailsWith(o, "corrupt", "BUNDLED_AI_ASSET_UNREADABLE") <==> Fits(files, r) && key !in files.digests)
              && (FailsWith(o, "corrupt", "BUNDLED_AI_ASSET_HASH_MISMATCH") <==>
                    Fits(files, r) && key in files.digests && !SameText(files.digests[key], r.sha256))
  {
    CodesDiffer();
    hide Lower, SameText;
    if Present(files, r) && KeyOf(files, r) in files.digests {
      LowerIgnoresCase(files.digests[KeyOf(files, r)], r.sha256);
    }
  }

  lemma CodesDiffer()
    ensures "BUNDLED_AI_ASSET_UNREADABLE" != "BUNDLED_AI_ASSET_HASH_MISMATCH"
    ensures "BUNDLED_AI_ASSET_UNREADABLE" != "BUNDLED_AI_ASSET_SIZE_MISMATCH"
    ensures "BUNDLED_AI_ASSET_HASH_MISMATCH" != "BUNDLED_AI_ASSET_SIZE_MISMATCH"
    ensures "missing" != "corrupt" && "missing" != "incompatible" && "missing" != "repair-required"
    ensures "corrupt" != "incompatible" && "corrupt" != "repair-required" && "incompatible" != "repair-required"
  {
    assert "BUNDLED_AI_ASSET_UNREADABLE"[17] != "BUNDLED_AI_ASSET_HASH_MISMATCH"[17];
    assert "BUNDLED_AI_ASSET_UNREADABLE"[17] != "BUNDLED_AI_ASSET_SIZE_MISMATCH"[17];
    assert "BUNDLED_AI_ASSET_HASH_MISMATCH"[17] != "BUNDLED_AI_ASSET_SIZE_MISMATCH"[17];
  }

  // ---- Manifest rules ----

  const CAPABILITIES: set<string> := {"speech", "language", "terminology"}
  const KINDS: set<string> := {"runtime", "library", "model", "data", "public-key"}

  predicate IsIdChar(c: char) {
    'a' <= c <= 'z' || 'A' <= c <= 'Z' || '0' <= c <= '9' || c == '.' || c == '_' || c == '-'
  }

  predicate ValidId(s: string) {
    0 < |s| <= 96 && forall k | 0 <= k < |s| :: IsIdChar(s[k])
  }

  /** Unicode white space, as `trim` removes it. */
  predicate IsWhiteSpace(c: char) {
    '\t' <= c <= '\r' || c == ' ' || c == '\U{85}' || c == '\U{A0}' || c == '\U{1680}' || '\U{2000}' <= c <= '\U{200A}'
    || c == '\U{2028}' || c == '\U{2029}' || c == '\U{202F}' || c == '\U{205F}' || c == '\U{3000}'
  }

  predicate NonBlank(s: string) {
    exists k | 0 <= k < |s| :: !IsWhiteSpace(s[k])
  }

  predicate RecordIsValid(r: Record) {
    && ValidId(r.id)
    && r.capability in CAPABILITIES
    && r.kind in KINDS
    && r.bytes > 0
    && r.otherFieldsValid
    && (if r.kind == "model" then r.modelId.Some? && NonBlank(r.modelId.value) && r.modelCard.Some?
        else r.modelId.None? && r.modelCard.None?)
    && (r.contextTokens.Some? ==> r.contextTokens.value > 0)
  }

  function Selector(r: Record): string {
    if r.kind == "model" then r.capability + ":" + r.kind + ":" + (if r.modelId.Some? then r.modelId.value else "")
    else if r.kind == "library" then r.capability + ":" + r.kind + ":" + r.id
    else r.capability + ":" + r.kind
  }

  /** What a selector is meant to identify. */
  datatype Slot = Slot(capability: string, kind: string, discriminator: Option<string>)

  function SlotOf(r: Record): Slot {
    Slot(r.capability, r.kind,
         if r.kind == "model" then r.modelId else if r.kind == "library" then Some(r.id) else None)
  }

  /** Every record valid, ids distinct, and no two records for this host in the same slot. */
  ghost predicate ManifestValid(records: seq<Record>) {
    && (forall k | 0 <= k < |records| :: RecordIsValid(records[k]))
    && (forall j, k | 0 <= j < k < |records| :: records[j].id != records[k].id)
    && (forall j, k | 0 <= j < k < |records| && records[j].hostMatches && records[k].hostMatches ::
          Selector(records[j]) != Selector(records[k]))
  }

  /** How far reading the bundle got before its records. */
  datatype Bundle =
    | Unavailable(state: string, code: string)
    | Loaded(releaseReady: bool, rootResolved: bool, records: seq<Record>)

  datatype Snapshot = Snapshot(state: string, failureCode: Option<string>, assets: seq<Inspected>)

  datatype Query = Query(capability: string, kind: string, modelId: Option<string>)

  predicate Matches(r: Record, q: Query) {
    && r.capability == q.capability && r.kind == q.kind
    && (q.modelId.Some? ==> r.modelId == q.modelId)
  }

  /** Queries whose selector is unique: models by id, and the kinds with one slot per capability. */
  predicate UniquelySelects(q: Query) {
    (q.kind == "model" && q.modelId.Some?) || (q.kind in {"runtime", "data", "public-key"} && q.modelId.None?)
  }

  function HostRecords(records: seq<Record>): seq<Record> {
    if records == [] then []
    else HostRecords(records[..|records| - 1]) + (if records[|records| - 1].hostMatches then [records[|records| - 1]] else [])
  }

  function InspectAll(files: Files, records: seq<Record>): seq<Inspected> {
    seq(|records|, k requires 0 <= k < |records| => Inspected(records[k], InspectAsset(files, records[k])))
  }

  /** The assets a full inspection reports: all records for this host, or none at all. */
  ghost function SnapshotAssets(files: Files, bundle: Bundle): seq<Inspected> {
    if bundle.Unavailable? || bundle.records == [] || !bundle.rootResolved || !ManifestValid(bundle.records) then []
    else InspectAll(files, HostRecords(bundle.records))
  }

  /** The asset a query finds in a list of records: the last one that matches. */
  function LastMatch(records: seq<Record>, q: Query): Option<Record> {
    if records == [] then None
    else
      var r := records[|records| - 1];
      if r.hostMatches && Matches(r, q) then Some(r) else LastMatch(records[..|records| - 1], q)
  }

  /** What an operation that needs one asset is told. */
  function Answer(outcome: Outcome): Result<Option<Verified>, string> {
    if outcome.Ready? then Ok(Some(outcome.asset)) else Err(outcome.code)
  }

  ghost function Lookup(files: Files, bundle: Bundle, q: Query): Result<Option<Verified>, string> {
    if bundle.Unavailable? || !bundle.rootResolved || !ManifestValid(bundle.records) then Ok(None)
    else
      var found := LastMatch(bundle.records, q);
      if found.None? then Ok(None) else Answer(InspectAsset(files, found.value))
  }

  // ---- Selector strings ----

  predicate ColonFree(s: string) { forall k | 0 <= k < |s| :: s[k] != ':' }

  /** Position of the first colon, or the length if there is none. */
  function ColonIndex(s: string): nat {
    if s == "" || s[0] == ':' then 0 else 1 + ColonIndex(s[1..])
  }

  lemma {:induction false} ColonEnds(a: string, x: string)
    requires ColonFree(a)
    ensures ColonIndex(a) == |a| && ColonIndex(a + ":" + x) == |a|
  {
    if a == "" {
      assert a + ":" + x == ":" + x;
    } else {
      assert (a + ":" + x)[1..] == a[1..] + ":" + x;
      ColonEnds(a[1..], x);
    }
  }

  lemma SplitAtColon(a: string, x: string, b: string, y: string)
    requires ColonFree(a) && ColonFree(b) && a + ":" + x == b + ":" + y
    ensures a == b && x == y
  {
    ColonEnds(a, x);
    ColonEnds(b, y);
    assert a == (a + ":" + x)[..|a|] && b == (b + ":" + y)[..|a|];
    assert x == (a + ":" + x)[|a| + 1..] && y == (b + ":" + y)[|a| + 1..];
  }

  lemma NamesAreColonFree(r: Record)
    requires RecordIsValid(r)
    ensures ColonFree(r.capability) && ColonFree(r.kind)
  {}

  /** The text after the capability: kind, and the discriminator where there is one. */
  function SelectorTail(r: Record): string {
    var slot := SlotOf(r);
    if slot.discriminator.Some? then r.kind + ":" + slot.discriminator.value else r.kind
  }

  lemma SelectorShape(r: Record)
    requires RecordIsValid(r)
    ensures Selector(r) == r.capability + ":" + SelectorTail(r)
  {
    if SlotOf(r).discriminator.Some? {
      var d := SlotOf(r).discriminator.value;
      assert r.capability + ":" + r.kind + ":" + d == r.capability + ":" + (r.kind + ":" + d);
    }
  }

  /** Selector strings are injective: two valid records share a selector exactly when they fill
      the same slot, even though model ids may contain the separator. */
  lemma SelectorIdentifiesSlot(a: Record, b: Record)
    requires RecordIsValid(a) && RecordIsValid(b)
    ensures Selector(a) == Selector(b) <==> SlotOf(a) == SlotOf(b)
  {
    SelectorShape(a);
    SelectorShape(b);
    NamesAreColonFree(a);
    NamesAreColonFree(b);
    if Selector(a) == Selector(b) {
      SplitAtColon(a.capability, SelectorTail(a), b.capability, SelectorTail(b));
      TailIdentifiesSlot(a, b);
    }
  }

  lemma TailIdentifiesSlot(a: Record, b: Record)
    requires RecordIsValid(a) && RecordIsValid(b) && SelectorTail(a) == SelectorTail(b)
    ensures a.kind == b.kind && SlotOf(a).discriminator == SlotOf(b).discriminator
  {
    NamesAreColonFree(a);
    NamesAreColonFree(b);
    var x, y := SlotOf(a).discriminator, SlotOf(b).discriminator;
    ColonEnds(a.kind, if x.Some? then x.value else "");
    ColonEnds(b.kind, if y.Some? then y.value else "");
    if x.Some? && y.Some? {
      SplitAtColon(a.kind, x.value, b.kind, y.value);
    }
  }

  // ---- Targeted lookup against full inspection ----

  function LastAsset(assets: seq<Inspected>, q: Query): Option<Inspected> {
    if assets == [] then None
    else
      var a := assets[|assets| - 1];
      if Matches(a.record, q) then Some(a) else LastAsset(assets[..|assets| - 1], q)
  }

  lemma {:induction false} LastMatchIsLastAsset(files: Files, records: seq<Record>, q: Query)
    ensures var found, asset := LastMatch(records, q), LastAsset(InspectAll(files, HostRecords(records)), q);
            && (found.None? <==> asset.None?)
            && (found.Some? ==> asset.value == Inspected(found.value, InspectAsset(files, found.value)))
  {
    if records != [] {
      var n := |records| - 1;
      LastMatchIsLastAsset(files, records[..n], q);
      var hosts, all := HostRecords(records[..n]), HostRecords(records);
      if records[n].hostMatches {
        var assets := InspectAll(files, all);
        assert all == hosts + [records[n]];
        assert assets[|assets| - 1] == Inspected(records[n], InspectAsset(files, records[n]));
        assert assets[..|assets| - 1] == InspectAll(files, hosts);
      } else {
        assert all == hosts;
      }
    }
  }

  /** For every manifest, file system and query, the early-exit lookup answers exactly as the
      last matching asset of the full inspection: verified, failed with the same code, or absent. */
  lemma LookupAgreesWithInspection(files: Files, bundle: Bundle, q: Query)
    ensures var asset := LastAsset(SnapshotAssets(files, bundle), q);
            Lookup(files, bundle, q) == (if asset.Some? then Answer(asset.value.outcome) else Ok(None))
  {
    if bundle.Loaded? {
      LastMatchIsLastAsset(files, bundle.records, q);
    }
  }

  /** The last record for this host that a query matches. */
  ghost predicate LastMatching(records: seq<Record>, q: Query, i: nat) {
    && i < |records| && records[i].hostMatches && Matches(records[i], q)
    && forall j | i < j < |records| :: !(records[j].hostMatches && Matches(records[j], q))
  }

  lemma {:induction false} LastMatchAt(records: seq<Record>, q: Query) returns (i: nat)
    ensures LastMatch(records, q).Some? ==> LastMatching(records, q, i) && LastMatch(records, q).value == records[i]
    ensures LastMatch(records, q).None? ==> forall j | 0 <= j < |records| :: !(records[j].hostMatches && Matches(records[j], q))
  {
    i := 0;
    if records != [] {
      var n := |records| - 1;
      if records[n].hostMatches && Matches(records[n], q) {
        i := n;
      } else {
        i := LastMatchAt(records[..n], q);
        assert forall j | 0 <= j < n :: records[..n][j] == records[j];
      }
    }
  }

  /** Every asset a lookup hands out is verified: it is the last record for this host that matches
      the query, of a valid manifest, and the file handed out is that record's, of the recorded
      size, with a digest that is both the file's and the recorded one. */
  lemma LookupIsVerified(files: Files, bundle: Bundle, q: Query, a: Verified) returns (i: nat)
    requires Lookup(files, bundle, q) == Ok(Some(a))
    ensures bundle.Loaded? && bundle.rootResolved && ManifestValid(bundle.records) && LastMatching(bundle.records, q, i)
    ensures var r := bundle.records[i];
            && Present(files, r) && Fits(files, r) && a.path == files.contained[r.relativePath]
            && KeyOf(files, r) in files.digests && files.digests[KeyOf(files, r)] == a.sha256 && SameText(a.sha256, r.sha256)
            && a.bytes == r.bytes && a.modelId == r.modelId && a.contextTokens == r.contextTokens
            && r.hostMatches && r.capability == q.capability && r.kind == q.kind && (q.modelId.Some? ==> a.modelId == q.modelId)
  {
    hide InspectAsset, ManifestValid, SameText;
    i := LastMatchAt(bundle.records, q);
    ReadyExactly(files, bundle.records[i]);
  }

  /** Which record the k-th record for this host is. */
  lemma {:induction false} HostRecordAt(records: seq<Record>, k: nat) returns (i: nat)
    requires k < |HostRecords(records)|
    ensures i < |records| && records[i].hostMatches && HostRecords(records)[k] == records[i]
    ensures |HostRecords(records[..i])| == k
    decreases |records|
  {
    var n := |records| - 1;
    i := n;
    if k < |HostRecords(records[..n])| {
      i := HostRecordAt(records[..n], k);
      assert records[..n][..i] == records[..i];
    }
  }

  /** Two assets of a snapshot come from two records, in the same order. */
  lemma AssetsComeFromRecords(files: Files, bundle: Bundle, j: nat, k: nat) returns (i: nat, i': nat)
    requires j < |SnapshotAssets(files, bundle)| && k < |SnapshotAssets(files, bundle)|
    ensures bundle.Loaded? && i < |bundle.records| && i' < |bundle.records|
    ensures SnapshotAssets(files, bundle)[j].record == bundle.records[i] && bundle.records[i].hostMatches
    ensures SnapshotAssets(files, bundle)[k].record == bundle.records[i'] && bundle.records[i'].hostMatches
    ensures j == k <==> i == i'
    ensures j < k ==> i < i'
  {
    hide ManifestValid, InspectAsset;
    i := HostRecordAt(bundle.records, j);
    i' := HostRecordAt(bundle.records, k);
    if i' < i { HostIndexGrows(bundle.records, i', i); } else if i < i' { HostIndexGrows(bundle.records, i, i'); }
  }

  lemma SnapshotIsOfValidManifest(files: Files, bundle: Bundle)
    requires SnapshotAssets(files, bundle) != []
    ensures bundle.Loaded? && ManifestValid(bundle.records)
  {}

  /** A uniquely selecting query matches at most one asset of a snapshot. */
  lemma UniqueQueryHasOneAsset(files: Files, bundle: Bundle, q: Query, j: nat, k: nat)
    requires UniquelySelects(q)
    requires j < |SnapshotAssets(files, bundle)| && Matches(SnapshotAssets(files, bundle)[j].record, q)
    requires k < |SnapshotAssets(files, bundle)| && Matches(SnapshotAssets(files, bundle)[k].record, q)
    ensures j == k
  {
    var i, i' := AssetsComeFromRecords(files, bundle, j, k);
    SnapshotIsOfValidManifest(files, bundle);
    hide SnapshotAssets, RecordIsValid;
    assert Selector(bundle.records[i]) == Selector(bundle.records[i']);
  }

  lemma {:induction false} OnlyMatchIsLast(assets: seq<Inspected>, q: Query, k: nat)
    requires k < |assets| && Matches(assets[k].record, q)
    requires forall j | 0 <= j < |assets| && Matches(assets[j].record, q) :: j == k
    ensures LastAsset(assets, q) == Some(assets[k])
    decreases |assets|
  {
    var n := |assets| - 1;
    if k < n {
      assert !Matches(assets[n].record, q);
      forall j | 0 <= j < n && Matches(assets[..n][j].record, q)
        ensures j == k
      {
        assert Matches(assets[j].record, q);
      }
      OnlyMatchIsLast(assets[..n], q, k);
    }
  }

  lemma {:induction false} NoMatchNoAsset(assets: seq<Inspected>, q: Query)
    ensures LastAsset(assets, q).None? <==> forall j | 0 <= j < |assets| :: !Matches(assets[j].record, q)
  {
    if assets != [] {
      var n := |assets| - 1;
      NoMatchNoAsset(assets[..n], q);
      if LastAsset(assets, q).None? {
        forall j | 0 <= j < |assets|
          ensures !Matches(assets[j].record, q)
        {
          if j < n { assert !Matches(assets[..n][j].record, q); }
        }
      } else if !Matches(assets[n].record, q) {
        var j :| 0 <= j < n && Matches(assets[..n][j].record, q);
        assert Matches(assets[j].record, q);
      }
    }
  }

  /** Where the selector is unique, the lookup returns a verified asset, a code or nothing
      exactly when the snapshot holds that asset verified, failed with that code, or absent. */
  lemma UniqueLookupMatchesSnapshot(files: Files, bundle: Bundle, q: Query)
    requires UniquelySelects(q)
    ensures var assets := SnapshotAssets(files, bundle);
            && (Lookup(files, bundle, q) == Ok(None) <==> forall k | 0 <= k < |assets| :: !Matches(assets[k].record, q))
            && (forall k | 0 <= k < |assets| && Matches(assets[k].record, q) ::
                  Lookup(files, bundle, q) == Answer(assets[k].outcome))
  {
    var assets := SnapshotAssets(files, bundle);
    LookupAgreesWithInspection(files, bundle, q);
    NoMatchNoAsset(assets, q);
    forall k | 0 <= k < |assets| && Matches(assets[k].record, q)
      ensures Lookup(files, bundle, q) == Answer(assets[k].outcome)
    {
      forall j | 0 <= j < |assets| && Matches(assets[j].record, q)
        ensures j == k
      {
        UniqueQueryHasOneAsset(files, bundle, q, j, k);
      }
      OnlyMatchIsLast(assets, q, k);
    }
  }

  /** cached_speech_model and the cached language config: the first verified match. */
  function FirstVerified(assets: seq<Inspected>, q: Query): Option<Verified> {
    if assets == [] then None
    else if Matches(assets[0].record, q) && assets[0].outcome.Ready? then Some(assets[0].outcome.asset)
    else FirstVerified(assets[1..], q)
  }

  /** Where the cached lookup finds its asset: the earliest match that is ready. */
  lemma {:induction false} FirstVerifiedAt(assets: seq<Inspected>, q: Query) returns (j: nat)
    ensures FirstVerified(assets, q).None? ==>
              forall i | 0 <= i < |assets| && Matches(assets[i].record, q) :: !assets[i].outcome.Ready?
    ensures FirstVerified(assets, q).Some? ==>
              j < |assets| && Matches(assets[j].record, q) && assets[j].outcome.Ready?
              && FirstVerified(assets, q).value == assets[j].outcome.asset
              && forall i | 0 <= i < j && Matches(assets[i].record, q) :: !assets[i].outcome.Ready?
  {
    j := 0;
    if assets != [] && !(Matches(assets[0].record, q) && assets[0].outcome.Ready?) {
      var rest := assets[1..];
      var k := FirstVerifiedAt(rest, q);
      j := k + 1;
      forall i | 0 <= i < |assets| && Matches(assets[i].record, q) && (FirstVerified(assets, q).None? || i < j)
        ensures !assets[i].outcome.Ready?
      {
        if i > 0 { assert rest[i - 1] == assets[i]; }
      }
    }
  }

  /** Where the targeted lookup finds its asset: the latest match. */
  lemma {:induction false} LastAssetAt(assets: seq<Inspected>, q: Query) returns (k: nat)
    ensures LastAsset(assets, q).None? ==> forall i | 0 <= i < |assets| :: !Matches(assets[i].record, q)
    ensures LastAsset(assets, q).Some? ==>
              k < |assets| && Matches(assets[k].record, q) && LastAsset(assets, q).value == assets[k]
              && forall i | k < i < |assets| :: !Matches(assets[i].record, q)
  {
    k := 0;
    if assets != [] {
      var n := |assets| - 1;
      if Matches(assets[n].record, q) {
        k := n;
      } else {
        k := LastAssetAt(assets[..n], q);
        forall i | 0 <= i < |assets| && (LastAsset(assets, q).None? || k < i)
          ensures !Matches(assets[i].record, q)
        {
          if i < n { assert assets[..n][i] == assets[i]; }
        }
      }
    }
  }

  /** What the targeted lookup finds, an error counting as nothing. */
  ghost function Found(files: Files, bundle: Bundle, q: Query): Option<Verified> {
    match Lookup(files, bundle, q)
    case Ok(found) => found
    case Err(_) => None
  }

  /** A ready match with another match after it. */
  ghost predicate ReadyBeforeLast(assets: seq<Inspected>, q: Query) {
    exists j, k | 0 <= j < k < |assets| ::
      Matches(assets[j].record, q) && assets[j].outcome.Ready? && Matches(assets[k].record, q)
  }

  /** Distinct assets of a snapshot that match one query have distinct model ids. */
  lemma MatchesDifferInModel(files: Files, bundle: Bundle, q: Query, j: nat, k: nat)
    requires q.kind != "library" && j < k < |SnapshotAssets(files, bundle)|
    requires Matches(SnapshotAssets(files, bundle)[j].record, q) && Matches(SnapshotAssets(files, bundle)[k].record, q)
    ensures SnapshotAssets(files, bundle)[j].record.modelId != SnapshotAssets(files, bundle)[k].record.modelId
  {
    var i, i' := AssetsComeFromRecords(files, bundle, j, k);
    SnapshotIsOfValidManifest(files, bundle);
    hide SnapshotAssets, RecordIsValid;
    assert Selector(bundle.records[i]) != Selector(bundle.records[i']);
  }

  /** Cached and targeted lookups agree exactly when no ready match comes before the last match:
      for every manifest, file system and query but those for libraries, which nothing asks for. */
  lemma CachedAgreesExactly(files: Files, bundle: Bundle, q: Query)
    requires q.kind != "library"
    ensures FirstVerified(SnapshotAssets(files, bundle), q) == Found(files, bundle, q)
            <==> !ReadyBeforeLast(SnapshotAssets(files, bundle), q)
  {
    var assets := SnapshotAssets(files, bundle);
    LookupAgreesWithInspection(files, bundle, q);
    var first := FirstVerifiedAt(assets, q);
    var last := LastAssetAt(assets, q);
    if FirstVerified(assets, q).Some? {
      assert first <= last;
      if first < last {
        MatchesDifferInModel(files, bundle, q, first, last);
        assert ReadyBeforeLast(assets, q);
      }
    }
  }

  /** The cached speech model is the targeted lookup's answer, whenever that is an asset. */
  lemma CachedModelAgrees(files: Files, bundle: Bundle, q: Query)
    requires UniquelySelects(q)
    ensures FirstVerified(SnapshotAssets(files, bundle), q) == Found(files, bundle, q)
  {
    var assets := SnapshotAssets(files, bundle);
    forall j, k | 0 <= j < k < |assets|
      ensures !(Matches(assets[j].record, q) && Matches(assets[k].record, q))
    {
      if Matches(assets[j].record, q) && Matches(assets[k].record, q) {
        UniqueQueryHasOneAsset(files, bundle, q, j, k);
      }
    }
    CachedAgreesExactly(files, bundle, q);
  }

  /** Two records for this host that the query matches. */
  ghost predicate MatchedTwice(records: seq<Record>, q: Query) {
    exists i, j | 0 <= i < j < |records| ::
      records[i].hostMatches && records[j].hostMatches && Matches(records[i], q) && Matches(records[j], q)
  }

  /** The files that make one record ready. */
  function FilesFor(r: Record): Files {
    var path := "asset";
    Files(map[r.relativePath := path, r.licenseFile := path, (if r.modelCard.Some? then r.modelCard.value else "") := path],
          map[path := Metadata(r.bytes, 0, true)], map[FileKey(path, r.bytes, 0) := r.sha256])
  }

  lemma FilesMakeReady(r: Record)
    requires RecordIsValid(r)
    ensures InspectAsset(FilesFor(r), r).Ready?
  {}

  /** Where a record for this host stands among the host's records. */
  lemma HostIndex(records: seq<Record>, i: nat)
    requires i < |records| && records[i].hostMatches
    ensures |HostRecords(records[..i])| < |HostRecords(records)|
    ensures HostRecords(records)[|HostRecords(records[..i])|] == records[i]
    decreases |records|
  {
    var n := |records| - 1;
    if i < n {
      assert records[..n][..i] == records[..i] && records[..n][i] == records[i];
      HostIndex(records[..n], i);
    }
  }

  lemma {:induction false} HostIndexGrows(records: seq<Record>, i: nat, j: nat)
    requires i < j <= |records| && records[i].hostMatches
    ensures |HostRecords(records[..i])| < |HostRecords(records[..j])|
    decreases j
  {
    assert records[..j][..j - 1] == records[..j - 1];
    if i < j - 1 { HostIndexGrows(records, i, j - 1); }
  }

  /** What a manifest's author can check: the two lookups agree on every file system exactly when
      no two records for this host match the query. */
  lemma AgreesEverywhereIffMatchedOnce(bundle: Bundle, q: Query)
    requires q.kind != "library" && bundle.Loaded? && bundle.rootResolved && ManifestValid(bundle.records)
    ensures (forall files :: FirstVerified(SnapshotAssets(files, bundle), q) == Found(files, bundle, q))
            <==> !MatchedTwice(bundle.records, q)
  {
    if MatchedTwice(bundle.records, q) {
      var files := FilesWithReadyMatch(bundle, q);
      CachedAgreesExactly(files, bundle, q);
    } else {
      hide SnapshotAssets, Found, FirstVerified, ReadyBeforeLast, ManifestValid;
      forall files
        ensures FirstVerified(SnapshotAssets(files, bundle), q) == Found(files, bundle, q)
      {
        ReadyBeforeLastIsMatchedTwice(files, bundle, q);
        CachedAgreesExactly(files, bundle, q);
      }
    }
  }

  lemma FilesWithReadyMatch(bundle: Bundle, q: Query) returns (files: Files)
    requires bundle.Loaded? && bundle.rootResolved && ManifestValid(bundle.records) && MatchedTwice(bundle.records, q)
    ensures ReadyBeforeLast(SnapshotAssets(files, bundle), q)
  {
    var records := bundle.records;
    var i, j :| 0 <= i < j < |records| && records[i].hostMatches && records[j].hostMatches
      && Matches(records[i], q) && Matches(records[j], q);
    files := FilesFor(records[i]);
    FilesMakeReady(records[i]);
    HostIndex(records, i);
    HostIndex(records, j);
    HostIndexGrows(records, i, j);
    hide RecordIsValid, InspectAsset, FilesFor, Matches, HostRecords, ManifestValid;
    var assets := SnapshotAssets(files, bundle);
    var a, b := |HostRecords(records[..i])|, |HostRecords(records[..j])|;
    assert assets[a] == Inspected(records[i], InspectAsset(files, records[i])) && assets[b].record == records[j];
  }

  lemma ReadyBeforeLastIsMatchedTwice(files: Files, bundle: Bundle, q: Query)
    requires bundle.Loaded?
    ensures ReadyBeforeLast(SnapshotAssets(files, bundle), q) ==> MatchedTwice(bundle.records, q)
  {
    hide SnapshotAssets;
    var assets := SnapshotAssets(files, bundle);
    if ReadyBeforeLast(assets, q) {
      var j, k :| 0 <= j < k < |assets|
        && Matches(assets[j].record, q) && assets[j].outcome.Ready? && Matches(assets[k].record, q);
      var i, i' := AssetsComeFromRecords(files, bundle, j, k);
    }
  }

  function LanguageModel(id: string): Record {
    Record(id, "language", "model", Some(id), Some("card"), "model", "license", "digest", 1, None, true, true)
  }

  /** It happens to the language model, which is looked up without an id: a valid manifest with
      two of them, both verified, gives the cached configuration one model and the targeted
      lookup the other. */
  lemma LanguageModelQueryIsAmbiguous() returns (files: Files, bundle: Bundle)
    ensures bundle == Loaded(true, true, [LanguageModel("m1"), LanguageModel("m2")]) && ManifestValid(bundle.records)
    ensures var q := Query("language", "model", None);
            && (forall k | 0 <= k < |SnapshotAssets(files, bundle)| :: SnapshotAssets(files, bundle)[k].outcome.Ready?)
            && FirstVerified(SnapshotAssets(files, bundle), q).Some? && Found(files, bundle, q).Some?
            && FirstVerified(SnapshotAssets(files, bundle), q) != Found(files, bundle, q)
  {
    var a, b := LanguageModel("m1"), LanguageModel("m2");
    files, bundle := FilesFor(a), Loaded(true, true, [a, b]);
    var q := Query("language", "model", None);
    LanguageModelsAreValid();
    FilesMakeReady(a);
    assert FilesFor(b) == files;
    FilesMakeReady(b);
    TwoHostRecords(a, b);
    assert SnapshotAssets(files, bundle) == [Inspected(a, InspectAsset(files, a)), Inspected(b, InspectAsset(files, b))];
    LookupAgreesWithInspection(files, bundle, q);
    assert "m1"[1] != "m2"[1];
  }

  lemma TwoHostRecords(a: Record, b: Record)
    requires a.hostMatches && b.hostMatches
    ensures HostRecords([a, b]) == [a, b]
  {
    assert [a, b][..1] == [a] && [a][..0] == [];
    assert HostRecords([a]) == [a];
  }

  lemma LanguageModelsAreValid()
    ensures ManifestValid([LanguageModel("m1"), LanguageModel("m2")])
  {
    var a, b := LanguageModel("m1"), LanguageModel("m2");
    assert "m1"[1] != "m2"[1] && !IsWhiteSpace("m1"[0]) && !IsWhiteSpace("m2"[0]);
    assert RecordIsValid(a) && RecordIsValid(b);
    SelectorIdentifiesSlot(a, b);
  }

  // ---- The cached implementation ----

  datatype Cached = Cached(bytes: nat, modifiedMs: nat, sha256: string)

  /** Every cached digest is the digest of that path at that size and time. */
  ghost predicate CacheSound(cache: map<string, Cached>, digests: map<FileKey, string>) {
    forall path | path in cache ::
      var key := FileKey(path, cache[path].bytes, cache[path].modifiedMs);
      key in digests && digests[key] == cache[path].sha256
  }

  lemma NothingInspected(files: Files)
    ensures InspectAll(files, HostRecords([])) == []
  {}

  lemma InspectSnoc(files: Files, records: seq<Record>, r: Record)
    ensures InspectAll(files, HostRecords(records + [r])) ==
      InspectAll(files, HostRecords(records)) + (if r.hostMatches then [Inspected(r, InspectAsset(files, r))] else [])
  {
    hide InspectAsset;
    HostSnoc(records, r);
    hide HostRecords;
    var hosts := HostRecords(records);
    assert InspectAll(files, hosts + [r]) == InspectAll(files, hosts) + [Inspected(r, InspectAsset(files, r))];
  }

  lemma HostSnoc(records: seq<Record>, r: Record)
    ensures HostRecords(records + [r]) == HostRecords(records) + (if r.hostMatches then [r] else [])
  {
    assert (records + [r])[..|records|] == records;
  }

  /** The asset service. File sizes and times may differ between calls; the digest of a given
      path, size and time may not. */
  class BundledAiAssets {
    var digestCache: map<string, Cached>

    constructor ()
      ensures digestCache == map[]
    {
      digestCache := map[];
    }

    method CachedSha256(files: Files, path: string, bytes: nat, modifiedMs: nat) returns (digest: Option<string>)
      requires CacheSound(digestCache, files.digests)
      modifies this
      ensures digest == Digest(files, path, bytes, modifiedMs)
      ensures CacheSound(digestCache, files.digests)
    {
      if path in digestCache {
        var cached := digestCache[path];
        if cached.bytes == bytes && cached.modifiedMs == modifiedMs {
          return Some(cached.sha256);
        }
      }
      digest := Digest(files, path, bytes, modifiedMs);
      if digest.Some? {
        digestCache := digestCache[path := Cached(bytes, modifiedMs, digest.value)];
      }
    }

    method InspectOne(files: Files, r: Record) returns (outcome: Outcome)
      requires CacheSound(digestCache, files.digests)
      modifies this
      ensures outcome == InspectAsset(files, r)
      ensures CacheSound(digestCache, files.digests)
    {
      if r.relativePath !in files.contained {
        return Failed("missing", "BUNDLED_AI_ASSET_MISSING");
      }
      if !NoticesPresent(files, r) {
        return Failed("repair-required", "BUNDLED_AI_NOTICE_MISSING");
      }
      var path := files.contained[r.relativePath];
      if path !in files.metadata {
        return Failed("missing", "BUNDLED_AI_ASSET_MISSING");
      }
      var m := files.metadata[path];
      if r.kind == "runtime" && !m.executable {
        return Failed("incompatible", "BUNDLED_AI_RUNTIME_NOT_EXECUTABLE");
      }
      if m.bytes != r.bytes {
        return Failed("corrupt", "BUNDLED_AI_ASSET_SIZE_MISMATCH");
      }
      var digest := CachedSha256(files, path, m.bytes, m.modifiedMs);
      outcome := Judge(files, r, digest);
    }

    /** verified_asset: scans the manifest up to the first bad record and hashes one file at most. */
    method VerifiedAsset(files: Files, bundle: Bundle, q: Query) returns (r: Result<Option<Verified>, string>)
      requires CacheSound(digestCache, files.digests)
      modifies this
      ensures r == Lookup(files, bundle, q)
      ensures CacheSound(digestCache, files.digests)
    {
      if bundle.Unavailable? || !bundle.rootResolved {
        return Ok(None);
      }
      var valid, matching := ScanForMatch(bundle.records, q);
      if !valid || matching.None? {
        return Ok(None);
      }
      var outcome := InspectOne(files, matching.value);
      r := Answer(outcome);
    }

    /** The loop of inspect: goes through all records, hashing every one that passes, before it decides. */
    method InspectRecords(files: Files, records: seq<Record>) returns (invalid: bool, assets: seq<Inspected>)
      requires CacheSound(digestCache, files.digests)
      modifies this
      ensures invalid <==> !ManifestValid(records)
      ensures !invalid ==> assets == InspectAll(files, HostRecords(records))
      ensures CacheSound(digestCache, files.digests)
    {
      ScanDecidesValidity(records);
      NothingScanned();
      hide RecordIsValid, Selector, InspectAsset, ManifestValid, CacheSound, HostRecords, InspectAll,
           ScanPasses, IdsOf, SelectorsOf;
      var ids: set<string>, selectors: set<string> := {}, {};
      assets := [];
      NothingInspected(files);
      assert records[..0] == [];
      invalid := false;
      var k := 0;
      while k < |records|
        invariant 0 <= k <= |records|
        invariant invalid <==> !ScanPasses(records[..k])
        invariant !invalid ==> ids == IdsOf(records[..k]) && selectors == SelectorsOf(records[..k])
        invariant !invalid ==> assets == InspectAll(files, HostRecords(records[..k]))
        invariant CacheSound(digestCache, files.digests)
      {
        var record := records[k];
        assert records[..k + 1] == records[..k] + [record];
        InspectSnoc(files, records[..k], record);
        ScanSnoc(records[..k], record);
        var isNew := record.id !in ids;
        ids := ids + {record.id};
        if !isNew || !RecordIsValid(record) {
          invalid := true;
        } else if record.hostMatches {
          var selector := Selector(record);
          if selector in selectors {
            invalid := true;
          } else {
            selectors := selectors + {selector};
            var outcome := InspectOne(files, record);
            assets := assets + [Inspected(record, outcome)];
          }
        }
        k := k + 1;
      }
      assert records[..k] == records;
    }

    /** inspect: all assets, and the state and code of the first that is not ready. */
    method Inspect(files: Files, bundle: Bundle) returns (snapshot: Snapshot)
      requires CacheSound(digestCache, files.digests)
      modifies this
      ensures snapshot.assets == SnapshotAssets(files, bundle)
      ensures snapshot.assets == [] ==> snapshot.state == EmptyBecause(bundle).0 && snapshot.failureCode == Some(EmptyBecause(bundle).1)
      ensures snapshot.assets != [] ==> Summarises(snapshot)
      ensures CacheSound(digestCache, files.digests)
    {
      hide ManifestValid, InspectAll, HostRecords, CacheSound;
      if bundle.Unavailable? {
        return Snapshot(bundle.state, Some(bundle.code), []);
      }
      if bundle.records == [] {
        return if bundle.releaseReady then Snapshot("missing", Some("BUNDLED_AI_ASSETS_MISSING"), [])
               else Snapshot("no-default-selected", Some("BUNDLED_AI_NO_DEFAULT_SELECTED"), []);
      }
      if !bundle.rootResolved {
        return Snapshot("missing", Some("BUNDLED_AI_ROOT_MISSING"), []);
      }
      var invalid, assets := InspectRecords(files, bundle.records);
      if invalid {
        return Snapshot("corrupt", Some("BUNDLED_AI_MANIFEST_INVALID"), []);
      }
      if assets == [] {
        return Snapshot("incompatible", Some("BUNDLED_AI_PLATFORM_UNSUPPORTED"), []);
      }
      FirstFailureIsFirst(assets);
      var failure := FirstFailure(assets);
      snapshot := Snapshot(if failure.Failed? then failure.state else "ready",
                           if failure.Failed? then Some(failure.code) else None, assets);
    }
  }

  /** Why a snapshot has no assets. */
  ghost function EmptyBecause(bundle: Bundle): (string, string) {
    if bundle.Unavailable? then (bundle.state, bundle.code)
    else if bundle.records == [] && bundle.releaseReady then ("missing", "BUNDLED_AI_ASSETS_MISSING")
    else if bundle.records == [] then ("no-default-selected", "BUNDLED_AI_NO_DEFAULT_SELECTED")
    else if !bundle.rootResolved then ("missing", "BUNDLED_AI_ROOT_MISSING")
    else if !ManifestValid(bundle.records) then ("corrupt", "BUNDLED_AI_MANIFEST_INVALID")
    else ("incompatible", "BUNDLED_AI_PLATFORM_UNSUPPORTED")
  }

  /** A snapshot is ready, without a code, exactly when all its assets are; otherwise it carries
      the state and code of the first that is not. */
  ghost predicate Summarises(snapshot: Snapshot) {
    var assets := snapshot.assets;
    && (snapshot.failureCode.None? <==> forall k | 0 <= k < |assets| :: assets[k].outcome.Ready?)
    && (snapshot.failureCode.None? ==> snapshot.state == "ready")
    && (forall k | 0 <= k < |assets| && assets[k].outcome.Failed? && (forall j | 0 <= j < k :: assets[j].outcome.Ready?) ::
          snapshot.state == assets[k].outcome.state && snapshot.failureCode == Some(assets[k].outcome.code))
  }

  lemma {:induction false} FirstFailureIsFirst(assets: seq<Inspected>)
    requires assets != []
    ensures FirstFailure(assets).Ready? <==> forall k | 0 <= k < |assets| :: assets[k].outcome.Ready?
    ensures forall k | 0 <= k < |assets| && assets[k].outcome.Failed? && (forall j | 0 <= j < k :: assets[j].outcome.Ready?) ::
              FirstFailure(assets) == assets[k].outcome
  {
    if !assets[0].outcome.Failed? && |assets| > 1 {
      var rest := assets[1..];
      FirstFailureIsFirst(rest);
      assert forall j | 0 <= j < |rest| :: rest[j] == assets[j + 1];
      forall k | 0 <= k < |assets| && assets[k].outcome.Failed? && (forall j | 0 <= j < k :: assets[j].outcome.Ready?)
        ensures FirstFailure(assets) == assets[k].outcome
      {
        assert forall j | 0 <= j < k - 1 :: rest[j].outcome.Ready?;
        assert rest[k - 1] == assets[k];
      }
      if FirstFailure(assets).Ready? {
        forall k | 0 <= k < |assets|
          ensures assets[k].outcome.Ready?
        {
          if k > 0 { assert rest[k - 1].outcome.Ready?; }
        }
      }
    }
  }

  /** The first asset that failed, or the last one seen if none did. */
  function FirstFailure(assets: seq<Inspected>): Outcome
    requires assets != []
  {
    if assets[0].outcome.Failed? || |assets| == 1 then assets[0].outcome else FirstFailure(assets[1..])
  }

  // ---- The scan both loops run ----

  function IdsOf(records: seq<Record>): set<string> {
    if records == [] then {} else IdsOf(records[..|records| - 1]) + {records[|records| - 1].id}
  }

  function SelectorsOf(records: seq<Record>): set<string> {
    if records == [] then {}
    else SelectorsOf(records[..|records| - 1]) +
         (if records[|records| - 1].hostMatches then {Selector(records[|records| - 1])} else {})
  }

  /** The test a loop makes for a record, given the ids and selectors it has seen. */
  predicate Passes(r: Record, ids: set<string>, selectors: set<string>) {
    r.id !in ids && RecordIsValid(r) && (r.hostMatches ==> Selector(r) !in selectors)
  }

  predicate ScanPasses(records: seq<Record>) {
    records == [] ||
    (var n := |records| - 1;
     ScanPasses(records[..n]) && Passes(records[n], IdsOf(records[..n]), SelectorsOf(records[..n])))
  }

  lemma NothingScanned()
    ensures ScanPasses([]) && IdsOf([]) == {} && SelectorsOf([]) == {}
  {}

  lemma ScanSnoc(records: seq<Record>, r: Record)
    ensures ScanPasses(records + [r]) <==> ScanPasses(records) && Passes(r, IdsOf(records), SelectorsOf(records))
    ensures IdsOf(records + [r]) == IdsOf(records) + {r.id}
    ensures SelectorsOf(records + [r]) == SelectorsOf(records) + (if r.hostMatches then {Selector(r)} else {})
  {
    hide Passes, Selector;
    assert (records + [r])[..|records|] == records;
  }

  lemma {:induction false} IdsAndSelectors(records: seq<Record>)
    ensures forall x :: x in IdsOf(records) <==> exists j :: 0 <= j < |records| && records[j].id == x
    ensures forall x :: x in SelectorsOf(records) <==>
              exists j :: 0 <= j < |records| && records[j].hostMatches && Selector(records[j]) == x
  {
    if records != [] {
      var n := |records| - 1;
      IdsAndSelectors(records[..n]);
      assert forall j | 0 <= j < n :: records[..n][j] == records[j];
    }
  }

  /** The one-pass scan accepts exactly the valid manifests. */
  lemma {:induction false} ScanDecidesValidity(records: seq<Record>)
    ensures ScanPasses(records) <==> ManifestValid(records)
  {
    if records != [] {
      var n := |records| - 1;
      var init := records[..n];
      ScanDecidesValidity(init);
      IdsAndSelectors(init);
      assert forall j | 0 <= j < n :: init[j] == records[j];
      if ManifestValid(records) {
        assert ManifestValid(init);
        assert Passes(records[n], IdsOf(init), SelectorsOf(init));
      }
      if ScanPasses(records) {
        ValidSnoc(records);
      }
    }
  }

  lemma ValidSnoc(records: seq<Record>)
    requires records != []
    requires var n := |records| - 1;
             ManifestValid(records[..n]) && Passes(records[n], IdsOf(records[..n]), SelectorsOf(records[..n]))
    ensures ManifestValid(records)
  {
    var n := |records| - 1;
    var init := records[..n];
    IdsAndSelectors(init);
    assert forall j | 0 <= j < n :: init[j] == records[j];
    forall i, j | 0 <= i < j < |records|
      ensures records[i].id != records[j].id
      ensures records[i].hostMatches && records[j].hostMatches ==> Selector(records[i]) != Selector(records[j])
    {
      if j < n {
        assert init[i].id != init[j].id;
      } else {
        assert init[i].id in IdsOf(init);
        assert init[i].hostMatches ==> Selector(init[i]) in SelectorsOf(init);
      }
    }
  }

  lemma {:induction false} FailureIsFinal(records: seq<Record>, k: nat)
    requires k <= |records| && !ScanPasses(records[..k])
    ensures !ScanPasses(records)
    decreases |records|
  {
    if k < |records| {
      var n := |records| - 1;
      assert records[..n][..k] == records[..k];
      FailureIsFinal(records[..n], k);
    } else {
      assert records[..k] == records;
    }
  }

  /** The scan of verified_asset: stops at the first bad record. */
  method ScanForMatch(records: seq<Record>, q: Query) returns (valid: bool, matching: Option<Record>)
    ensures valid <==> ManifestValid(records)
    ensures valid ==> matching == LastMatch(records, q)
  {
    ScanDecidesValidity(records);
    NothingScanned();
    hide RecordIsValid, ManifestValid, ScanPasses, IdsOf, SelectorsOf, Selector;
    var ids: set<string>, selectors: set<string> := {}, {};
    matching := None;
    var k := 0;
    while k < |records|
      invariant 0 <= k <= |records|
      invariant ScanPasses(records[..k]) && ids == IdsOf(records[..k]) && selectors == SelectorsOf(records[..k])
      invariant matching == LastMatch(records[..k], q)
    {
      var record := records[k];
      assert records[..k + 1] == records[..k] + [record] && records[..k + 1][..k] == records[..k];
      ScanSnoc(records[..k], record);
      if record.id in ids || !RecordIsValid(record) {
        FailureIsFinal(records, k + 1);
        return false, None;
      }
      ids := ids + {record.id};
      if record.hostMatches {
        var selector := Selector(record);
        if selector in selectors {
          FailureIsFinal(records, k + 1);
          return false, None;
        }
        selectors := selectors + {selector};
        if Matches(record, q) {
          matching := Some(record);
        }
      }
      k := k + 1;
    }
    assert records[..k] == records;
    valid := true;
  }
}
