/**
 * Attachment inlining (`FileTransferAPI.convert_to_dict` with
 * `inline_attachments` set): the converted phases are paired with the
 * original phases by position, as `zip` does, so only the shorter of the
 * two lists is walked; for each attachment name of a converted phase the
 * original phase's attachment of that name is looked up, and the base64
 * text of its bytes is stored under the entry's `data` key.
 */
module Inlining {
  import opened Results
  import opened JsonValues
  import opened TestRecords
  import Base64

  /** The `KeyError` raised when a converted phase names an attachment the
    * original phase does not have. */
  datatype LookupError = LookupError(phase: nat, name: string)

  /** How many phase pairs `zip` yields. */
  function PairedCount(tree: ConvertedRecord, record: TestRecord): (n: nat)
    ensures n <= |tree.phases| && n <= |record.phases|
    ensures n == |tree.phases| || n == |record.phases|
  {
    if |tree.phases| <= |record.phases| then |tree.phases| else |record.phases|
  }

  /** Every attachment name of the converted phase can be looked up in the original phase. */
  predicate Resolves(phase: ConvertedPhase, original: PhaseRecord)
  {
    phase.attachments.Keys <= original.attachments.Keys
  }

  /** No lookup fails in any of the paired phases. */
  predicate AllResolve(tree: ConvertedRecord, record: TestRecord)
  {
    forall i :: 0 <= i < PairedCount(tree, record) ==> Resolves(tree.phases[i], record.phases[i])
  }

  /** `e` is the failure inlining reports: a name in the first paired phase
    * whose lookup fails. */
  predicate IsFirstFailure(tree: ConvertedRecord, record: TestRecord, e: LookupError)
  {
    && e.phase < PairedCount(tree, record)
    && e.name in tree.phases[e.phase].attachments
    && e.name !in record.phases[e.phase].attachments
    && forall j :: 0 <= j < e.phase ==> Resolves(tree.phases[j], record.phases[j])
  }

  /** An attachment entry with the base64 text of the original bytes stored
    * under `data`, added or replacing what was there. */
  function InlinedEntry(entry: Entry, payload: seq<Base64.byte>): Entry
  {
    entry[DATA_KEY := Str(Base64.Encode(payload))]
  }

  /** What inlining does to one entry: `data` holds the base64 text of the
    * payload, it is the only key that may be added, and every other key
    * keeps its value. */
  lemma InlinedEntryStores(entry: Entry, payload: seq<Base64.byte>)
    ensures var r := InlinedEntry(entry, payload);
      && r.Keys == entry.Keys + {DATA_KEY}
      && r[DATA_KEY] == Str(Base64.Encode(payload))
      && forall key :: key in entry && key != DATA_KEY ==> r[key] == entry[key]
  {
  }

  /** A paired phase with every attachment entry inlined from the original phase. */
  function InlinedPhase(phase: ConvertedPhase, original: PhaseRecord): (r: ConvertedPhase)
    requires Resolves(phase, original)
    ensures r.fields == phase.fields && r.attachments.Keys == phase.attachments.Keys
  {
    phase.(attachments := map name | name in phase.attachments ::
      InlinedEntry(phase.attachments[name], original.attachments[name].data))
  }

  /** The tree after inlining: paired phases inlined, the rest, and
    * everything outside the phase list, as they were. */
  function Inlined(tree: ConvertedRecord, record: TestRecord): (r: ConvertedRecord)
    requires AllResolve(tree, record)
    ensures r.fields == tree.fields && |r.phases| == |tree.phases|
  {
    var n := PairedCount(tree, record);
    tree.(phases := seq(|tree.phases|, i requires 0 <= i < |tree.phases| =>
      if i < n then InlinedPhase(tree.phases[i], record.phases[i]) else tree.phases[i]))
  }

  /** The outer loop of `convert_to_dict`: the paired phases in order, over
    * the freshly converted tree. */
  method InlineAttachments(tree: ConvertedRecord, record: TestRecord) returns (r: Result<ConvertedRecord, LookupError>)
    ensures r.Ok? <==> AllResolve(tree, record)
    ensures r.Ok? ==> r.value == Inlined(tree, record)
    ensures r.Err? ==> IsFirstFailure(tree, record, r.error)
  {
    var n := PairedCount(tree, record);
    var phases := tree.phases;
    var i := 0;
    while i < n
      invariant 0 <= i <= n && |phases| == |tree.phases|
      invariant forall j :: 0 <= j < i ==> Resolves(tree.phases[j], record.phases[j])
      invariant forall j :: 0 <= j < i ==> phases[j] == InlinedPhase(tree.phases[j], record.phases[j])
      invariant forall j :: i <= j < |phases| ==> phases[j] == tree.phases[j]
    {
      var inlined := InlinePhase(phases[i], record.phases[i], i);
      if inlined.Err? {
        return Err(inlined.error);
      }
      phases := phases[i := inlined.value];
      i := i + 1;
    }
    r := Ok(tree.(phases := phases));
  }

  /** The inner loop: every attachment of one paired phase, looked up in the
    * original phase by name; `index` is the phase's position. */
  method InlinePhase(phase: ConvertedPhase, original: PhaseRecord, index: nat) returns (r: Result<ConvertedPhase, LookupError>)
    ensures r.Ok? <==> Resolves(phase, original)
    ensures r.Ok? ==> Resolves(phase, original) && r.value == InlinedPhase(phase, original)
    ensures r.Err? ==>
      && r.error.phase == index
      && r.error.name in phase.attachments
      && r.error.name !in original.attachments
  {
    var attachments := phase.attachments;
    var pending := phase.attachments.Keys;
    while pending != {}
      invariant pending <= phase.attachments.Keys == attachments.Keys
      invariant forall name :: name in phase.attachments && name !in pending ==>
        name in original.attachments &&
        attachments[name] == InlinedEntry(phase.attachments[name], original.attachments[name].data)
      invariant forall name :: name in pending ==> attachments[name] == phase.attachments[name]
      decreases pending
    {
      var name :| name in pending;
      if name !in original.attachments {
        return Err(LookupError(index, name));
      }
      attachments := attachments[name := InlinedEntry(attachments[name], original.attachments[name].data)];
      pending := pending - {name};
    }
    r := Ok(phase.(attachments := attachments));
  }

  // ---- what inlining promises ----

  /** Every inlined entry's `data` is the base64 text of the paired
    * original attachment, and decoding it gives those bytes back. */
  lemma InlinedData(tree: ConvertedRecord, record: TestRecord, i: nat, name: string)
    requires AllResolve(tree, record)
    requires i < PairedCount(tree, record) && name in tree.phases[i].attachments
    ensures name in record.phases[i].attachments
    ensures var entry := Inlined(tree, record).phases[i].attachments[name];
      var payload := record.phases[i].attachments[name].data;
      && DATA_KEY in entry
      && entry[DATA_KEY] == Str(Base64.Encode(payload))
      && Base64.Decode(entry[DATA_KEY].s) == Some(payload)
  {
    Base64.DecodeEncode(record.phases[i].attachments[name].data);
  }

  /** The inlined text uses only the standard alphabet and `=` padding, four
    * characters for every started three bytes. */
  lemma InlinedDataShape(tree: ConvertedRecord, record: TestRecord, i: nat, name: string)
    requires AllResolve(tree, record)
    requires i < PairedCount(tree, record) && name in tree.phases[i].attachments
    ensures name in record.phases[i].attachments
    ensures var text := Inlined(tree, record).phases[i].attachments[name][DATA_KEY].s;
      var n := |record.phases[i].attachments[name].data|;
      && |text| == 4 * ((n + 2) / 3)
      && Base64.PaddingLength(n) <= |text|
      && Base64.IsPaddedAt(text, |text| - Base64.PaddingLength(n))
  {
    Base64.EncodeShape(record.phases[i].attachments[name].data);
  }

  /** Inlining changes nothing but the `data` key of paired attachment entries. */
  lemma InlinedFrame(tree: ConvertedRecord, record: TestRecord)
    requires AllResolve(tree, record)
    ensures var out := Inlined(tree, record);
      && out.fields == tree.fields
      && |out.phases| == |tree.phases|
      && (forall i :: PairedCount(tree, record) <= i < |tree.phases| ==> out.phases[i] == tree.phases[i])
      && (forall i :: 0 <= i < PairedCount(tree, record) ==>
            && out.phases[i].fields == tree.phases[i].fields
            && out.phases[i].attachments.Keys == tree.phases[i].attachments.Keys)
  {
  }

  /** Within one entry, every key other than `data` keeps its value, and
    * `data` is the only key that may be added. */
  lemma InlinedEntryFrame(tree: ConvertedRecord, record: TestRecord, i: nat, name: string)
    requires AllResolve(tree, record)
    requires i < PairedCount(tree, record) && name in tree.phases[i].attachments
    ensures var before := tree.phases[i].attachments[name];
      var after := Inlined(tree, record).phases[i].attachments[name];
      && after.Keys == before.Keys + {DATA_KEY}
      && forall key :: key in before && key != DATA_KEY ==> after[key] == before[key]
  {
  }

  /** Inlining an already inlined tree changes nothing more. */
  lemma InlinedIdempotent(tree: ConvertedRecord, record: TestRecord)
    requires AllResolve(tree, record)
    ensures AllResolve(Inlined(tree, record), record)
    ensures Inlined(Inlined(tree, record), record) == Inlined(tree, record)
  {
    var once := Inlined(tree, record);
    var n := PairedCount(tree, record);
    assert PairedCount(once, record) == n;
    forall i | 0 <= i < n
      ensures Resolves(once.phases[i], record.phases[i])
      ensures InlinedPhase(once.phases[i], record.phases[i]) == once.phases[i]
    {
      InlinedPhaseIdempotent(tree.phases[i], record.phases[i]);
    }
    var twice := Inlined(once, record);
    assert |twice.phases| == |once.phases|;
    forall i | 0 <= i < |once.phases| ensures twice.phases[i] == once.phases[i] {
    }
  }

  /** The same for one paired phase. */
  lemma InlinedPhaseIdempotent(phase: ConvertedPhase, original: PhaseRecord)
    requires Resolves(phase, original)
    ensures Resolves(InlinedPhase(phase, original), original)
    ensures InlinedPhase(InlinedPhase(phase, original), original) == InlinedPhase(phase, original)
  {
    var p := InlinedPhase(phase, original);
    var q := InlinedPhase(p, original);
    forall name | name in p.attachments ensures q.attachments[name] == p.attachments[name] {
      var payload := original.attachments[name].data;
      var e := p.attachments[name];
      assert e == InlinedEntry(phase.attachments[name], payload);
      assert InlinedEntry(e, payload) == e;
    }
    assert q.attachments == p.attachments;
  }
}
