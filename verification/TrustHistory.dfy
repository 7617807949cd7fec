/** The validator of a recording's trust history: one pass over the revisions and one over the
    processing receipts, which together establish a lineage. Values arrive as untyped JSON. */
module TrustHistory {
  import opened Common

  /** A JSON value as the validator tells them apart. `Other` is any value that is neither null
      nor one of the other kinds: a number that is no safe integer, an array, an object. */
  datatype Json = Undefined | Null | Boolean(flag: bool) | Number(n: int) | Text(s: string) | Other

  function Coalesce(j: Json, default: Json): Json { if j.Undefined? || j.Null? then default else j }

  datatype Comparison = Comparison(
    rawTextSha256: Json, normalizedTextSha256: Json, rawTextBytes: Json, normalizedTextBytes: Json,
    rawSegmentCount: Json, normalizedSegmentCount: Json, changed: Json, extras: bool)

  datatype ComparisonField = NoComparison | NotAComparison | Compared(value: Comparison)

  /** `extras`: the object carries keys the validator does not know. */
  datatype Revision = Revision(
    revisionId: Json, version: Json, source: Json, kind: Json, parentRevisionId: Json, engine: Json,
    modelId: Json, modelSha256: Json, comparison: ComparisonField, rawComparisonAvailable: Json,
    createdAtMs: Json, extras: bool)

  datatype Receipt = Receipt(
    receiptId: Json, attempt: Json, operation: Json, stage: Json, outcome: Json, engine: Json,
    modelId: Json, modelSha256: Json, revisionId: Json, inputRevisionId: Json, inputRevisionKind: Json,
    promptTemplateSha256: Json, validationResult: Json, fallbackApplied: Json, errorCode: Json,
    errorSummary: Json, startedAtMs: Json, finishedAtMs: Json, elapsedMs: Json,
    comparison: ComparisonField, extras: bool)

  datatype History = History(
    recordingId: Json, currentRevisionId: Json, currentCleanedRevisionId: Json,
    revisionCount: Json, revisions: seq<Revision>, receiptCount: Json, receipts: seq<Receipt>,
    immutableRevisions: Json, originalAudioRetained: Json, rawPathExposed: Json,
    keyMaterialExposedToRenderer: Json, extras: bool)

  const MAX_HISTORY_REVISIONS: nat := 512
  const MAX_HISTORY_PROCESSING_RECEIPTS: nat := 2048
  const AI_CLEANED: Json := Text("ai-cleaned")

  // ---- Shapes of single values ----

  predicate HistoryIdCharacter(c: char) {
    'A' <= c <= 'Z' || 'a' <= c <= 'z' || '0' <= c <= '9' || c == '_' || c == '-'
  }

  predicate HistoryId(s: string) { 1 <= |s| <= 96 && forall i :: 0 <= i < |s| ==> HistoryIdCharacter(s[i]) }

  predicate IsHistoryId(j: Json) { j.Text? && HistoryId(j.s) }

  predicate Identity(s: string) { s != [] && forall i :: 0 <= i < |s| ==> HistoryIdCharacter(s[i]) || s[i] == '.' }

  predicate Sha256(s: string) {
    |s| == 64 && forall i :: 0 <= i < |s| ==> 'a' <= s[i] <= 'f' || 'A' <= s[i] <= 'F' || '0' <= s[i] <= '9'
  }

  predicate IsSha256(j: Json) { j.Text? && Sha256(j.s) }

  predicate StableCode(s: string) {
    1 <= |s| <= 100 && forall i :: 0 <= i < |s| ==> 'A' <= s[i] <= 'Z' || '0' <= s[i] <= '9' || s[i] == '_'
  }

  /** Bytes of the text in UTF-8 (section 3 of RFC 3629). */
  function Utf8Bytes(s: string): nat {
    if s == [] then 0
    else
      (if s[0] < 128 as char then 1 else if s[0] < 2048 as char then 2 else if s[0] < 65536 as char then 3 else 4)
      + Utf8Bytes(s[1..])
  }

  predicate Count(j: Json) { j.Number? && 0 <= j.n }

  predicate OptionalText(j: Json, max: nat) { j.Null? || (j.Text? && 0 < |j.s| <= max) }

  predicate IsKind(j: Json) {
    j == Text("raw-asr") || j == Text("normalized") || j == AI_CLEANED || j == Text("legacy")
  }

  predicate IsSource(j: Json) {
    j == Text("initial") || j == Text("reprocess") || j == Text("import") || j == Text("review")
    || j == Text("ai-cleanup")
  }

  // ---- canonicalHistoryComparison ----

  predicate ComparisonIsValid(c: Comparison) {
    && IsSha256(c.rawTextSha256) && IsSha256(c.normalizedTextSha256)
    && Count(c.rawTextBytes) && Count(c.normalizedTextBytes)
    && Count(c.rawSegmentCount) && Count(c.normalizedSegmentCount) && c.changed.Boolean?
  }

  predicate ComparisonAccepted(f: ComparisonField) { f.Compared? && ComparisonIsValid(f.value) }

  function WithoutExtras(f: ComparisonField): ComparisonField {
    if f.Compared? then Compared(f.value.(extras := false)) else f
  }

  // ---- canonicalHistoryRevision ----

  function KindOf(r: Revision): Json {
    Coalesce(r.kind, if r.source == Text("review") then Text("normalized") else Text("raw-asr"))
  }

  function ParentOf(r: Revision): Json { Coalesce(r.parentRevisionId, Null) }

  predicate RevisionIsValid(r: Revision) {
    && IsHistoryId(r.revisionId)
    && r.version.Number? && 1 <= r.version.n
    && IsSource(r.source) && IsKind(KindOf(r))
    && (KindOf(r) == AI_CLEANED <==> r.source == Text("ai-cleanup"))
    && (ParentOf(r).Null? || IsHistoryId(ParentOf(r)))
    && (KindOf(r) == AI_CLEANED ==> !ParentOf(r).Null?)
    && r.engine.Text? && 0 < |r.engine.s| <= 80
    && OptionalText(r.modelId, 200) && OptionalText(r.modelSha256, 64)
    && (r.modelSha256.Null? || IsSha256(r.modelSha256))
    && r.rawComparisonAvailable.Boolean? && Count(r.createdAtMs)
    && ComparisonAccepted(r.comparison)
  }

  function CanonicalRevision(r: Revision): Revision {
    r.(kind := KindOf(r), parentRevisionId := ParentOf(r), comparison := WithoutExtras(r.comparison), extras := false)
  }

  // ---- canonicalHistoryReceipt ----

  /** The receipt with every default filled in, before anything is checked. */
  function WithDefaults(r: Receipt): Receipt {
    r.(modelId := Coalesce(r.modelId, Null),
       modelSha256 := Coalesce(r.modelSha256, Null),
       revisionId := Coalesce(r.revisionId, Null),
       stage := Coalesce(r.stage, if r.operation == Text("protected-term-review") then Text("normalization")
                                  else Text("transcription")),
       inputRevisionId := Coalesce(r.inputRevisionId, Null),
       inputRevisionKind := Coalesce(r.inputRevisionKind, Null),
       promptTemplateSha256 := Coalesce(r.promptTemplateSha256, Null),
       validationResult := Coalesce(r.validationResult, Text("not-applicable")),
       fallbackApplied := Coalesce(r.fallbackApplied, Boolean(false)),
       errorCode := Coalesce(r.errorCode, Null),
       errorSummary := Coalesce(r.errorSummary, Null))
  }

  predicate IsOperation(j: Json) {
    j == Text("transcription") || j == Text("protected-term-review") || j == Text("transcript-cleanup")
    || j == Text("local-ai-recap")
  }

  predicate IsStage(j: Json) {
    j == Text("transcription") || j == Text("normalization") || j == Text("cleanup") || j == Text("recap")
  }

  predicate Known(j: Json, revisionIds: set<string>) { j.Text? && j.s in revisionIds }

  /** The checks of one receipt whose defaults are filled in: its values one by one. */
  predicate ReceiptValues(r: Receipt, revisionIds: set<string>) {
    && IsHistoryId(r.receiptId) && r.attempt.Number? && 1 <= r.attempt.n
    && IsOperation(r.operation) && IsStage(r.stage)
    && (r.outcome == Text("succeeded") || r.outcome == Text("failed") || r.outcome == Text("cancelled"))
    && r.engine.Text? && |r.engine.s| <= 80 && Identity(r.engine.s)
    && (r.modelId.Null? || (OptionalText(r.modelId, 200) && Identity(r.modelId.s)))
    && (r.modelSha256.Null? || IsSha256(r.modelSha256))
    && (r.revisionId.Null? || IsHistoryId(r.revisionId))
    && (r.inputRevisionId.Null? || (IsHistoryId(r.inputRevisionId) && Known(r.inputRevisionId, revisionIds)))
    && (r.inputRevisionKind.Null? || IsKind(r.inputRevisionKind))
    && (r.inputRevisionId.Null? <==> r.inputRevisionKind.Null?)
    && (r.promptTemplateSha256.Null? || IsSha256(r.promptTemplateSha256))
    && (r.validationResult == Text("passed") || r.validationResult == Text("failed")
        || r.validationResult == Text("not-applicable"))
    && r.fallbackApplied.Boolean?
    && (r.errorCode.Null? || (r.errorCode.Text? && StableCode(r.errorCode.s)))
    && (r.errorSummary.Null? || (r.errorSummary.Text? && 1 <= Utf8Bytes(r.errorSummary.s) <= 500))
    && Count(r.startedAtMs) && Count(r.finishedAtMs) && r.startedAtMs.n <= r.finishedAtMs.n && Count(r.elapsedMs)
  }

  /** What an outcome commits a receipt to. */
  predicate ReceiptOutcome(r: Receipt, revisionIds: set<string>) {
    if r.outcome == Text("succeeded") then
      && r.errorCode.Null? && r.errorSummary.Null?
      && if r.operation == Text("local-ai-recap") then
           r.revisionId.Null? && r.comparison.NoComparison? && r.inputRevisionId.Text? && r.promptTemplateSha256.Text?
         else
           Known(r.revisionId, revisionIds) && !r.comparison.NoComparison?
    else
      r.revisionId.Null? && r.errorCode.Text? && r.comparison.NoComparison?
  }

  predicate ReceiptIsValid(r: Receipt, revisionIds: set<string>) {
    && ReceiptValues(WithDefaults(r), revisionIds) && ReceiptOutcome(WithDefaults(r), revisionIds)
    && (r.comparison.NoComparison? || ComparisonAccepted(r.comparison))
  }

  function CanonicalReceipt(r: Receipt): Receipt {
    WithDefaults(r).(comparison := WithoutExtras(r.comparison), extras := false)
  }

  // ---- What an accepted history is ----

  predicate Bounds(h: History) {
    && IsHistoryId(h.recordingId)
    && (h.currentRevisionId.Text? || h.currentRevisionId.Null?)
    && (h.currentCleanedRevisionId.Text? || h.currentCleanedRevisionId.Null?)
    && |h.revisions| <= MAX_HISTORY_REVISIONS && |h.receipts| <= MAX_HISTORY_PROCESSING_RECEIPTS
    && h.revisionCount == Number(|h.revisions|) && h.receiptCount == Number(|h.receipts|)
    && h.immutableRevisions == Boolean(true) && h.originalAudioRetained.Boolean?
    && h.rawPathExposed == Boolean(false) && h.keyMaterialExposedToRenderer == Boolean(false)
  }

  /** A lineage, said of all revisions at once: versions count from 1, no id occurs twice, and
      every parent is the id of a revision with a smaller version. */
  ghost predicate Lineage(revisions: seq<Revision>) {
    && (forall i :: 0 <= i < |revisions| ==> RevisionIsValid(revisions[i]) && revisions[i].version == Number(i + 1))
    && (forall i, j :: 0 <= i < j < |revisions| ==> revisions[i].revisionId != revisions[j].revisionId)
    && (forall i :: 0 <= i < |revisions| && !ParentOf(revisions[i]).Null? ==> HasParentBelow(revisions, i))
  }

  ghost predicate HasParentBelow(revisions: seq<Revision>, i: nat)
    requires i < |revisions|
  {
    exists j :: 0 <= j < i && revisions[j].revisionId == ParentOf(revisions[i])
  }

  ghost predicate Names(j: Json, revisions: seq<Revision>) {
    exists i :: 0 <= i < |revisions| && revisions[i].revisionId == j
  }

  ghost predicate NamesOfKind(j: Json, revisions: seq<Revision>, kind: Json) {
    exists i :: 0 <= i < |revisions| && revisions[i].revisionId == j && KindOf(revisions[i]) == kind
  }

  ghost predicate CurrentIsValid(h: History) {
    && (if h.revisions == [] then h.currentRevisionId.Null?
        else Names(h.currentRevisionId, h.revisions) && !NamesOfKind(h.currentRevisionId, h.revisions, AI_CLEANED))
    && (h.currentCleanedRevisionId.Null? || NamesOfKind(h.currentCleanedRevisionId, h.revisions, AI_CLEANED))
  }

  function Ids(revisions: seq<Revision>): set<string> {
    set i | 0 <= i < |revisions| && revisions[i].revisionId.Text? :: revisions[i].revisionId.s
  }

  ghost predicate ReceiptsAreValid(receipts: seq<Receipt>, revisions: seq<Revision>) {
    && (forall i :: 0 <= i < |receipts| ==>
          ReceiptIsValid(receipts[i], Ids(revisions)) && receipts[i].attempt == Number(i + 1))
    && (forall i, j :: 0 <= i < j < |receipts| ==> receipts[i].receiptId != receipts[j].receiptId)
    && (forall i :: 0 <= i < |receipts| && Coalesce(receipts[i].inputRevisionId, Null).Text? ==>
          NamesOfKind(receipts[i].inputRevisionId, revisions, receipts[i].inputRevisionKind))
  }

  ghost predicate Accepted(h: History) {
    Bounds(h) && Lineage(h.revisions) && CurrentIsValid(h) && ReceiptsAreValid(h.receipts, h.revisions)
  }

  function CanonicalRevisions(revisions: seq<Revision>): seq<Revision> {
    seq(|revisions|, i requires 0 <= i < |revisions| => CanonicalRevision(revisions[i]))
  }

  function CanonicalReceipts(receipts: seq<Receipt>): seq<Receipt> {
    seq(|receipts|, i requires 0 <= i < |receipts| => CanonicalReceipt(receipts[i]))
  }

  function CanonicalHistory(h: History): History {
    h.(revisions := CanonicalRevisions(h.revisions), receipts := CanonicalReceipts(h.receipts), extras := false)
  }

  // ---- The passes ----

  /** What the revision pass has gathered after some revisions. */
  ghost predicate Gathered(revisions: seq<Revision>, ids: set<string>, kinds: map<string, Json>) {
    && ids == Ids(revisions) && kinds.Keys == ids
    && forall i :: 0 <= i < |revisions| ==>
         revisions[i].revisionId.Text? && revisions[i].revisionId.s in kinds
         && kinds[revisions[i].revisionId.s] == KindOf(revisions[i])
  }

  lemma IdsSnoc(revisions: seq<Revision>, r: Revision)
    requires r.revisionId.Text?
    ensures Ids(revisions + [r]) == Ids(revisions) + {r.revisionId.s}
  {
    var longer := revisions + [r];
    assert longer[|revisions|] == r;
    forall i | 0 <= i < |revisions| && revisions[i].revisionId.Text?
      ensures revisions[i].revisionId.s in Ids(longer)
    {
      assert longer[i] == revisions[i];
    }
  }

  /** Membership in the gathered set is being the id of some revision so far. */
  lemma IdsNames(revisions: seq<Revision>, j: Json)
    ensures Known(j, Ids(revisions)) <==> j.Text? && Names(j, revisions)
  {}

  lemma ValidRevisionHasId(r: Revision)
    ensures RevisionIsValid(r) ==> r.revisionId.Text? && (ParentOf(r).Null? || ParentOf(r).Text?)
  {}

  lemma LineageSnoc(revisions: seq<Revision>, r: Revision)
    ensures Lineage(revisions + [r]) <==>
      && Lineage(revisions) && RevisionIsValid(r) && r.version == Number(|revisions| + 1)
      && !Known(r.revisionId, Ids(revisions))
      && (ParentOf(r).Null? || (ParentOf(r) != r.revisionId && Known(ParentOf(r), Ids(revisions))))
  {
    ValidRevisionHasId(r);
    hide RevisionIsValid;
    var longer, n := revisions + [r], |revisions|;
    assert longer[n] == r && forall i :: 0 <= i < n ==> longer[i] == revisions[i];
    IdsNames(revisions, r.revisionId);
    IdsNames(revisions, ParentOf(r));
    if Lineage(longer) {
      forall i | 0 <= i < n && !ParentOf(revisions[i]).Null?
        ensures HasParentBelow(revisions, i)
      {
        assert HasParentBelow(longer, i);
      }
      assert !ParentOf(r).Null? ==> HasParentBelow(longer, n);
    }
    if Lineage(revisions) && Known(ParentOf(r), Ids(revisions)) {
      assert HasParentBelow(longer, n);
    }
    if Lineage(revisions) {
      forall i | 0 <= i < n && !ParentOf(longer[i]).Null?
        ensures HasParentBelow(longer, i)
      {
        assert HasParentBelow(revisions, i);
      }
    }
  }

  lemma CanonicalRevisionsSnoc(revisions: seq<Revision>, r: Revision)
    ensures CanonicalRevisions(revisions + [r]) == CanonicalRevisions(revisions) + [CanonicalRevision(r)]
  {}

  lemma CanonicalReceiptsSnoc(receipts: seq<Receipt>, r: Receipt)
    ensures CanonicalReceipts(receipts + [r]) == CanonicalReceipts(receipts) + [CanonicalReceipt(r)]
  {}

  lemma NoRevisions()
    ensures Lineage([]) && Gathered([], {}, map[]) && CanonicalRevisions([]) == []
  {}

  /** The checks of one revision against the ones before it. */
  method CheckRevision(ghost before: seq<Revision>, r: Revision, index: nat, ids: set<string>, kinds: map<string, Json>)
    returns (fits: bool, moreIds: set<string>, moreKinds: map<string, Json>)
    requires Lineage(before) && Gathered(before, ids, kinds) && index == |before|
    ensures fits <==> Lineage(before + [r])
    ensures fits ==> Gathered(before + [r], moreIds, moreKinds)
  {
    LineageSnoc(before, r);
    var parent := ParentOf(r);
    if !RevisionIsValid(r) || r.version != Number(index + 1) || r.revisionId.s in ids
       || (!parent.Null? && (parent == r.revisionId || parent.s !in ids)) {
      return false, {}, map[];
    }
    IdsSnoc(before, r);
    fits, moreIds, moreKinds := true, ids + {r.revisionId.s}, kinds[r.revisionId.s := KindOf(r)];
  }

  /** The map over the revisions: each is checked against what the earlier ones gathered. */
  method ParseRevisions(values: seq<Revision>)
    returns (ok: bool, revisions: seq<Revision>, ids: set<string>, kinds: map<string, Json>)
    ensures ok <==> Lineage(values)
    ensures ok ==> revisions == CanonicalRevisions(values) && Gathered(values, ids, kinds)
  {
    hide Lineage, Gathered, RevisionIsValid, CanonicalRevision, CanonicalRevisions;
    NoRevisions();
    revisions, ids, kinds := [], {}, map[];
    var index := 0;
    assert values[..0] == [];
    while index < |values|
      invariant index <= |values|
      invariant Lineage(values[..index]) && Gathered(values[..index], ids, kinds)
      invariant revisions == CanonicalRevisions(values[..index])
    {
      var r := values[index];
      assert values[..index + 1] == values[..index] + [r];
      var fits;
      fits, ids, kinds := CheckRevision(values[..index], r, index, ids, kinds);
      if !fits {
        PrefixLineage(values, index + 1);
        return false, [], {}, map[];
      }
      CanonicalRevisionsSnoc(values[..index], r);
      revisions := revisions + [CanonicalRevision(r)];
      index := index + 1;
    }
    assert values[..index] == values;
    ok := true;
  }

  lemma PrefixLineage(revisions: seq<Revision>, n: nat)
    requires n <= |revisions|
    ensures Lineage(revisions) ==> Lineage(revisions[..n])
  {
    hide RevisionIsValid;
    if Lineage(revisions) {
      var prefix := revisions[..n];
      forall i | 0 <= i < n && !ParentOf(prefix[i]).Null?
        ensures HasParentBelow(prefix, i)
      {
        assert HasParentBelow(revisions, i);
      }
    }
  }

  /** The kinds gathered in the pass answer for the revisions. */
  lemma KindsNames(revisions: seq<Revision>, ids: set<string>, kinds: map<string, Json>, j: Json, kind: Json)
    requires Lineage(revisions) && Gathered(revisions, ids, kinds) && j.Text?
    ensures j.s in ids && kinds[j.s] == kind <==> NamesOfKind(j, revisions, kind)
  {
    if j.s in ids {
      IdsNames(revisions, j);
      var i :| 0 <= i < |revisions| && revisions[i].revisionId == j;
      assert kinds[j.s] == KindOf(revisions[i]);
      forall k | 0 <= k < |revisions| && revisions[k].revisionId == j
        ensures k == i
      {}
    }
  }

  ghost predicate GatheredReceipts(receipts: seq<Receipt>, receiptIds: set<string>) {
    && (forall i :: 0 <= i < |receipts| ==> receipts[i].receiptId.Text? && receipts[i].receiptId.s in receiptIds)
    && (forall id :: id in receiptIds ==> exists i :: 0 <= i < |receipts| && receipts[i].receiptId == Text(id))
  }

  predicate ReceiptFits(r: Receipt, index: nat, ids: set<string>, kinds: map<string, Json>)
    requires kinds.Keys == ids
  {
    && ReceiptIsValid(r, ids) && r.attempt == Number(index + 1)
    && (Coalesce(r.inputRevisionId, Null).Text? ==> kinds[r.inputRevisionId.s] == r.inputRevisionKind)
  }

  lemma GatheredReceiptsSnoc(receipts: seq<Receipt>, r: Receipt, receiptIds: set<string>)
    requires GatheredReceipts(receipts, receiptIds) && r.receiptId.Text?
    ensures GatheredReceipts(receipts + [r], receiptIds + {r.receiptId.s})
  {
    var longer, n := receipts + [r], |receipts|;
    assert longer[n] == r && forall i :: 0 <= i < n ==> longer[i] == receipts[i];
  }

  lemma ReceiptsSnoc(receipts: seq<Receipt>, r: Receipt, receiptIds: set<string>, revisions: seq<Revision>,
                     ids: set<string>, kinds: map<string, Json>)
    requires Lineage(revisions) && Gathered(revisions, ids, kinds)
    requires ReceiptsAreValid(receipts, revisions) && GatheredReceipts(receipts, receiptIds)
    ensures ReceiptsAreValid(receipts + [r], revisions) <==>
      ReceiptFits(r, |receipts|, ids, kinds) && r.receiptId.s !in receiptIds
  {
    if r.receiptId.Text? && Coalesce(r.inputRevisionId, Null).Text? {
      KindsNames(revisions, ids, kinds, r.inputRevisionId, r.inputRevisionKind);
    }
    ReceiptsSplit(receipts, r, revisions);
  }

  /** One more receipt is valid when it is valid itself and its id is new. */
  lemma ReceiptsSplit(receipts: seq<Receipt>, r: Receipt, revisions: seq<Revision>)
    ensures ReceiptsAreValid(receipts + [r], revisions) <==>
      && ReceiptsAreValid(receipts, revisions)
      && ReceiptIsValid(r, Ids(revisions)) && r.attempt == Number(|receipts| + 1)
      && (Coalesce(r.inputRevisionId, Null).Text? ==> NamesOfKind(r.inputRevisionId, revisions, r.inputRevisionKind))
      && forall i :: 0 <= i < |receipts| ==> receipts[i].receiptId != r.receiptId
  {
    hide ReceiptIsValid;
    var longer, n := receipts + [r], |receipts|;
    assert longer[n] == r && forall i :: 0 <= i < n ==> longer[i] == receipts[i];
  }

  lemma NoReceipts(revisions: seq<Revision>)
    ensures ReceiptsAreValid([], revisions)
  {}

  lemma PrefixReceipts(receipts: seq<Receipt>, n: nat, revisions: seq<Revision>)
    requires n <= |receipts|
    ensures ReceiptsAreValid(receipts, revisions) ==> ReceiptsAreValid(receipts[..n], revisions)
  {}

  /** The checks of one receipt against the ones before it. */
  method CheckReceipt(ghost before: seq<Receipt>, r: Receipt, index: nat, receiptIds: set<string>,
                      ghost history: seq<Revision>, ids: set<string>, kinds: map<string, Json>)
    returns (fits: bool, canonical: Receipt, extended: set<string>)
    requires Lineage(history) && Gathered(history, ids, kinds) && index == |before|
    requires ReceiptsAreValid(before, history) && GatheredReceipts(before, receiptIds)
    ensures fits <==> ReceiptsAreValid(before + [r], history)
    ensures fits ==> GatheredReceipts(before + [r], extended)
    ensures CanonicalReceipts(before + [r]) == CanonicalReceipts(before) + [canonical]
  {
    ReceiptsSnoc(before, r, receiptIds, history, ids, kinds);
    canonical := CanonicalReceipt(r);
    CanonicalReceiptsSnoc(before, r);
    fits := ReceiptFits(r, index, ids, kinds) && r.receiptId.s !in receiptIds;
    extended := {};
    if fits {
      GatheredReceiptsSnoc(before, r, receiptIds);
      extended := receiptIds + {r.receiptId.s};
    }
  }

  /** The map over the receipts. */
  method ParseReceipts(values: seq<Receipt>, ghost history: seq<Revision>, ids: set<string>, kinds: map<string, Json>)
    returns (ok: bool, receipts: seq<Receipt>)
    requires Lineage(history) && Gathered(history, ids, kinds)
    ensures ok <==> ReceiptsAreValid(values, history)
    ensures ok ==> receipts == CanonicalReceipts(values)
  {
    hide ReceiptsAreValid, ReceiptIsValid, Lineage, Gathered;
    receipts := [];
    var receiptIds: set<string>, index := {}, 0;
    NoReceipts(history);
    assert values[..0] == [];
    while index < |values|
      invariant index <= |values|
      invariant ReceiptsAreValid(values[..index], history) && GatheredReceipts(values[..index], receiptIds)
      invariant receipts == CanonicalReceipts(values[..index])
    {
      var r := values[index];
      assert values[..index + 1] == values[..index] + [r];
      var fits, canonical, extended := CheckReceipt(values[..index], r, index, receiptIds, history, ids, kinds);
      if !fits {
        PrefixReceipts(values, index + 1, history);
        return false, [];
      }
      receiptIds := extended;
      receipts := receipts + [canonical];
      index := index + 1;
    }
    assert values[..index] == values;
    ok := true;
  }

  /** trustHistoryResultSchema: accepts exactly the valid histories, in canonical form. */
  method Parse(h: History) returns (parsed: Option<History>)
    ensures parsed == if Accepted(h) then Some(CanonicalHistory(h)) else None
  {
    if !Bounds(h) { return None; }
    var ok, revisions, ids, kinds := ParseRevisions(h.revisions);
    if !ok { return None; }
    CurrentFromKinds(h, ids, kinds);
    var current, cleaned := h.currentRevisionId, h.currentCleanedRevisionId;
    if (ids == {} && !current.Null?) || (ids != {} && !(current.Text? && current.s in ids))
       || (current.Text? && current.s in kinds && kinds[current.s] == AI_CLEANED)
       || (!cleaned.Null? && !(cleaned.s in kinds && kinds[cleaned.s] == AI_CLEANED)) {
      return None;
    }
    var valid, receipts := ParseReceipts(h.receipts, h.revisions, ids, kinds);
    if !valid { return None; }
    parsed := Some(h.(revisions := revisions, receipts := receipts, extras := false));
  }

  lemma CurrentFromKinds(h: History, ids: set<string>, kinds: map<string, Json>)
    requires Bounds(h) && Lineage(h.revisions) && Gathered(h.revisions, ids, kinds)
    ensures var current, cleaned := h.currentRevisionId, h.currentCleanedRevisionId;
      CurrentIsValid(h) <==>
        && (ids == {} ==> current.Null?) && (ids != {} ==> current.Text? && current.s in ids)
        && !(current.Text? && current.s in kinds && kinds[current.s] == AI_CLEANED)
        && (cleaned.Null? || (cleaned.s in kinds && kinds[cleaned.s] == AI_CLEANED))
  {
    IdsNames(h.revisions, h.currentRevisionId);
    if h.revisions != [] { assert h.revisions[0].revisionId.s in ids; }
    if h.currentRevisionId.Text? {
      KindsNames(h.revisions, ids, kinds, h.currentRevisionId, AI_CLEANED);
    }
    if h.currentCleanedRevisionId.Text? {
      KindsNames(h.revisions, ids, kinds, h.currentCleanedRevisionId, AI_CLEANED);
    }
  }

  // ---- What acceptance means ----

  /** A walk from a revision to its parent, to that one's parent, and so on, by id. */
  ghost predicate AncestorWalk(revisions: seq<Revision>, walk: seq<nat>) {
    && walk != [] && (forall k :: 0 <= k < |walk| ==> walk[k] < |revisions|)
    && forall k :: 0 < k < |walk| ==> IsParent(revisions, walk[k], walk[k - 1])
  }

  predicate IsParent(revisions: seq<Revision>, parent: nat, child: nat)
    requires parent < |revisions| && child < |revisions|
  {
    revisions[parent].revisionId == ParentOf(revisions[child])
  }

  /** Every step of every ancestor walk goes to a smaller version, so no walk is longer than the
      version it starts from. */
  lemma {:induction false} WalksDescend(revisions: seq<Revision>, walk: seq<nat>)
    requires Lineage(revisions) && AncestorWalk(revisions, walk)
    ensures forall k :: 0 < k < |walk| ==> revisions[walk[k]].version.n < revisions[walk[k - 1]].version.n
    ensures |walk| <= revisions[walk[0]].version.n
    decreases |walk|
  {
    hide RevisionIsValid, ParentOf;
    if |walk| > 1 {
      ValidRevisionHasId(revisions[walk[1]]);
      assert IsParent(revisions, walk[1], walk[0]);
      assert HasParentBelow(revisions, walk[0]);
      var rest := walk[1..];
      forall k | 0 < k < |rest|
        ensures IsParent(revisions, rest[k], rest[k - 1])
      {
        assert IsParent(revisions, walk[k + 1], walk[k]);
      }
      WalksDescend(revisions, rest);
      forall k | 1 < k < |walk|
        ensures revisions[walk[k]].version.n < revisions[walk[k - 1]].version.n
      {
        assert walk[k] == rest[k - 1] && walk[k - 1] == rest[k - 2];
      }
    }
  }

  /** Every revision has such a walk to a revision without a parent, and that origin is never an
      AI rewriting. */
  lemma {:induction false} EveryRevisionHasAnOrigin(revisions: seq<Revision>, i: nat) returns (walk: seq<nat>)
    requires Lineage(revisions) && i < |revisions|
    ensures AncestorWalk(revisions, walk) && walk[0] == i
    ensures var origin := revisions[walk[|walk| - 1]];
            ParentOf(origin).Null? && KindOf(origin) != AI_CLEANED
    decreases i
  {
    hide RevisionIsValid, KindOf, ParentOf;
    if ParentOf(revisions[i]).Null? {
      OriginIsNotCleaned(revisions[i]);
      walk := [i];
    } else {
      assert HasParentBelow(revisions, i);
      var j :| 0 <= j < i && revisions[j].revisionId == ParentOf(revisions[i]);
      var rest := EveryRevisionHasAnOrigin(revisions, j);
      walk := [i] + rest;
      forall k | 0 < k < |walk|
        ensures IsParent(revisions, walk[k], walk[k - 1])
      {
        if k > 1 { assert IsParent(revisions, rest[k - 1], rest[k - 2]); }
      }
    }
  }

  lemma OriginIsNotCleaned(r: Revision)
    requires RevisionIsValid(r) && ParentOf(r).Null?
    ensures KindOf(r) != AI_CLEANED
  {}

  /** Every receipt names only revisions of this history: a success other than a recap the one it
      made, and every receipt with an input one of the kind it states. */
  lemma ReceiptsNameRevisions(h: History, k: nat)
    requires Accepted(h) && k < |h.receipts|
    ensures var r := h.receipts[k];
            && (r.outcome == Text("succeeded") && r.operation != Text("local-ai-recap") ==> Names(r.revisionId, h.revisions))
            && (r.outcome == Text("succeeded") && r.operation == Text("local-ai-recap") ==>
                  NamesOfKind(r.inputRevisionId, h.revisions, r.inputRevisionKind))
            && (Coalesce(r.revisionId, Null).Text? ==> Names(r.revisionId, h.revisions))
  {
    IdsNames(h.revisions, h.receipts[k].revisionId);
  }

  // ---- Canonical form ----

  predicate Given(j: Json) { !j.Undefined? && !j.Null? }

  /** A field that was given is kept; one that was not has its default. */
  predicate KeptOr(given: Json, kept: Json, default: Json) { kept == if Given(given) then given else default }

  /** The known fields of a comparison, kept one by one. */
  predicate SameComparison(a: ComparisonField, b: ComparisonField) {
    && (a.NoComparison? <==> b.NoComparison?) && (a.Compared? <==> b.Compared?)
    && (a.Compared? ==>
          && a.value.rawTextSha256 == b.value.rawTextSha256 && a.value.normalizedTextSha256 == b.value.normalizedTextSha256
          && a.value.rawTextBytes == b.value.rawTextBytes && a.value.normalizedTextBytes == b.value.normalizedTextBytes
          && a.value.rawSegmentCount == b.value.rawSegmentCount
          && a.value.normalizedSegmentCount == b.value.normalizedSegmentCount && a.value.changed == b.value.changed)
  }

  /** The canonical form of a revision says what the revision said: a kind or parent that was left
      out is filled in, unknown keys are gone, everything else is kept. */
  lemma RevisionKeepsGiven(r: Revision)
    ensures var c := CanonicalRevision(r);
            && c.revisionId == r.revisionId && c.version == r.version && c.source == r.source && c.engine == r.engine
            && c.modelId == r.modelId && c.modelSha256 == r.modelSha256
            && c.rawComparisonAvailable == r.rawComparisonAvailable && c.createdAtMs == r.createdAtMs
            && SameComparison(c.comparison, r.comparison)
            && KeptOr(r.kind, c.kind, if r.source == Text("review") then Text("normalized") else Text("raw-asr"))
            && KeptOr(r.parentRevisionId, c.parentRevisionId, Null)
            && !c.extras && (c.comparison.Compared? ==> !c.comparison.value.extras)
  {}

  /** So does that of a receipt, with the defaults of eleven fields. */
  lemma ReceiptKeepsGiven(r: Receipt)
    ensures var c := CanonicalReceipt(r);
            && c.receiptId == r.receiptId && c.attempt == r.attempt && c.operation == r.operation && c.outcome == r.outcome
            && c.engine == r.engine && c.startedAtMs == r.startedAtMs && c.finishedAtMs == r.finishedAtMs
            && c.elapsedMs == r.elapsedMs && SameComparison(c.comparison, r.comparison)
            && KeptOr(r.modelId, c.modelId, Null) && KeptOr(r.modelSha256, c.modelSha256, Null)
            && KeptOr(r.revisionId, c.revisionId, Null)
            && KeptOr(r.stage, c.stage, if r.operation == Text("protected-term-review") then Text("normalization")
                                        else Text("transcription"))
            && KeptOr(r.inputRevisionId, c.inputRevisionId, Null) && KeptOr(r.inputRevisionKind, c.inputRevisionKind, Null)
            && KeptOr(r.promptTemplateSha256, c.promptTemplateSha256, Null)
            && KeptOr(r.validationResult, c.validationResult, Text("not-applicable"))
            && KeptOr(r.fallbackApplied, c.fallbackApplied, Boolean(false))
            && KeptOr(r.errorCode, c.errorCode, Null) && KeptOr(r.errorSummary, c.errorSummary, Null)
            && !c.extras && (c.comparison.Compared? ==> !c.comparison.value.extras)
  {}

  /** And the history keeps its header, its order and its lengths. */
  lemma HistoryKeepsGiven(h: History)
    ensures var c := CanonicalHistory(h);
            && c == h.(revisions := c.revisions, receipts := c.receipts, extras := false)
            && |c.revisions| == |h.revisions| && |c.receipts| == |h.receipts|
            && (forall i | 0 <= i < |h.revisions| :: c.revisions[i] == CanonicalRevision(h.revisions[i]))
            && (forall i | 0 <= i < |h.receipts| :: c.receipts[i] == CanonicalReceipt(h.receipts[i]))
  {}

  lemma RevisionIsCanonical(r: Revision)
    requires RevisionIsValid(r)
    ensures RevisionIsValid(CanonicalRevision(r)) && CanonicalRevision(CanonicalRevision(r)) == CanonicalRevision(r)
    ensures KindOf(CanonicalRevision(r)) == KindOf(r) && ParentOf(CanonicalRevision(r)) == ParentOf(r)
  {}

  lemma ReceiptIsCanonical(r: Receipt, ids: set<string>)
    requires ReceiptIsValid(r, ids)
    ensures ReceiptIsValid(CanonicalReceipt(r), ids) && CanonicalReceipt(CanonicalReceipt(r)) == CanonicalReceipt(r)
  {
    assert WithDefaults(CanonicalReceipt(r)) == CanonicalReceipt(r);
  }

  lemma LineageIsCanonical(revisions: seq<Revision>)
    requires Lineage(revisions)
    ensures Lineage(CanonicalRevisions(revisions)) && Ids(CanonicalRevisions(revisions)) == Ids(revisions)
    ensures CanonicalRevisions(CanonicalRevisions(revisions)) == CanonicalRevisions(revisions)
  {
    var canonical := CanonicalRevisions(revisions);
    forall i | 0 <= i < |revisions|
      ensures RevisionIsValid(canonical[i]) && CanonicalRevision(canonical[i]) == canonical[i]
      ensures !ParentOf(canonical[i]).Null? ==> HasParentBelow(canonical, i)
    {
      RevisionIsCanonical(revisions[i]);
      if !ParentOf(revisions[i]).Null? {
        assert HasParentBelow(revisions, i);
        var j :| 0 <= j < i && revisions[j].revisionId == ParentOf(revisions[i]);
        assert canonical[j].revisionId == revisions[j].revisionId;
      }
    }
    assert forall i :: 0 <= i < |revisions| ==> canonical[i].revisionId == revisions[i].revisionId;
  }

  lemma CanonicalNames(j: Json, revisions: seq<Revision>, kind: Json)
    requires Lineage(revisions)
    ensures Names(j, CanonicalRevisions(revisions)) <==> Names(j, revisions)
    ensures NamesOfKind(j, CanonicalRevisions(revisions), kind) <==> NamesOfKind(j, revisions, kind)
  {
    var canonical := CanonicalRevisions(revisions);
    forall i | 0 <= i < |revisions|
      ensures canonical[i].revisionId == revisions[i].revisionId && KindOf(canonical[i]) == KindOf(revisions[i])
    {
      RevisionIsCanonical(revisions[i]);
    }
  }

  lemma ReceiptsAreCanonical(receipts: seq<Receipt>, revisions: seq<Revision>)
    requires Lineage(revisions) && ReceiptsAreValid(receipts, revisions)
    ensures ReceiptsAreValid(CanonicalReceipts(receipts), CanonicalRevisions(revisions))
    ensures CanonicalReceipts(CanonicalReceipts(receipts)) == CanonicalReceipts(receipts)
  {
    var canonical := CanonicalReceipts(receipts);
    LineageIsCanonical(revisions);
    forall i | 0 <= i < |receipts|
      ensures ReceiptIsValid(canonical[i], Ids(revisions)) && CanonicalReceipt(canonical[i]) == canonical[i]
      ensures canonical[i].inputRevisionId.Text? ==>
                NamesOfKind(canonical[i].inputRevisionId, CanonicalRevisions(revisions), canonical[i].inputRevisionKind)
    {
      ReceiptIsCanonical(receipts[i], Ids(revisions));
      CanonicalNames(receipts[i].inputRevisionId, revisions, receipts[i].inputRevisionKind);
    }
  }

  /** Validating the canonical output again accepts it and returns it unchanged. */
  lemma CanonicalFormIsStable(h: History)
    requires Accepted(h)
    ensures Accepted(CanonicalHistory(h)) && CanonicalHistory(CanonicalHistory(h)) == CanonicalHistory(h)
  {
    LineageIsCanonical(h.revisions);
    ReceiptsAreCanonical(h.receipts, h.revisions);
    CanonicalNames(h.currentRevisionId, h.revisions, AI_CLEANED);
    CanonicalNames(h.currentCleanedRevisionId, h.revisions, AI_CLEANED);
  }
}
