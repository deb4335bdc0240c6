/** The journal file: what `_record` writes and what `_load_journal` accepts. */
module SessionJournal {
  import opened Basics
  import opened SessionProtocol
  import opened SessionConfig

  /** Who a journal belongs to: the session and the hash of the device's identity. */
  datatype Identity = Identity(session: SessionId, fingerprint: string)

  const JOURNAL_FIELDS := {"version", "run_id", "owner_ref", "generation", "target_fingerprint",
                           "resources", "cleanup_known", "app_cleanup_required", "installed"}

  const RECEIPT_FIELDS := {"operation_ref", "fixture_id", "kind", "handle", "state"}

  // ---------------------------------------------------------------- writing

  function KindName(kind: Kind): string {
    match kind
    case Forward => "forward"
    case Reverse => "reverse"
  }

  function StateName(state: ReceiptState): string {
    match state
    case CreateStarted => "create-started"
    case Created => "created"
    case CleanupStarted => "cleanup-started"
    case Cleaned => "cleaned"
  }

  function Handle(f: Fixture): Json {
    JObject(map["local" := JString(f.local), "remote" := JString(f.remote)])
  }

  /** `ResourceReceipt.private` */
  function Private(r: Receipt): Json {
    JObject(map["operation_ref" := JString(r.operationRef),
                "fixture_id" := JString(r.fixtureId),
                "kind" := JString(KindName(r.fixture.kind)),
                "handle" := Handle(r.fixture),
                "state" := JString(StateName(r.state))])
  }

  function Encode(id: Identity, j: Journal, installed: Json): Json {
    JObject(map["version" := JNumber(1.0),
                "run_id" := JString(id.session.runId),
                "owner_ref" := JString(id.session.ownerRef),
                "generation" := JString(id.session.generation),
                "target_fingerprint" := JString(id.fingerprint),
                "resources" := JList(seq(|j.resources|, i requires 0 <= i < |j.resources| => Private(j.resources[i]))),
                "cleanup_known" := JBool(j.cleanupKnown),
                "app_cleanup_required" := JBool(j.appCleanupRequired),
                "installed" := installed])
  }

  // ---------------------------------------------------------------- reading

  /** `_text` without a pattern. */
  predicate IsText(v: Json) {
    v.JString? && 0 < |v.s| <= 1024 && '\0' !in v.s
  }

  function NamedState(v: Json): Option<ReceiptState> {
    if v == JString("create-started") then Some(CreateStarted)
    else if v == JString("created") then Some(Created)
    else if v == JString("cleanup-started") then Some(CleanupStarted)
    else if v == JString("cleaned") then Some(Cleaned)
    else None
  }

  /** One receipt of the file. The pattern of a fixture id is implied by its being configured. */
  function ReadReceipt(t: Target, raw: Json): Option<Receipt> {
    if !raw.JObject? || raw.fields.Keys != RECEIPT_FIELDS || !IsText(raw.fields["fixture_id"]) then None else
    var id := raw.fields["fixture_id"].s;
    if id !in t.fixtures then None else
    var f := t.fixtures[id];
    var state := NamedState(raw.fields["state"]);
    if raw.fields["kind"] != JString(KindName(f.kind)) || raw.fields["handle"] != Handle(f) || state.None?
       || !IsText(raw.fields["operation_ref"])
    then None
    else Some(Receipt(raw.fields["operation_ref"].s, id, f, state.value))
  }

  /** Python compares `True == 1`, so the version may also be the boolean. */
  predicate IsOurs(id: Identity, data: Json) {
    && data.JObject? && data.fields.Keys == JOURNAL_FIELDS
    && (data.fields["version"] == JNumber(1.0) || data.fields["version"] == JBool(true))
    && data.fields["run_id"] == JString(id.session.runId)
    && data.fields["owner_ref"] == JString(id.session.ownerRef)
    && data.fields["generation"] == JString(id.session.generation)
    && data.fields["target_fingerprint"] == JString(id.fingerprint)
    && data.fields["resources"].JList?
    && data.fields["app_cleanup_required"].JBool?
    && |data.fields["resources"].items| <= MAX_JOURNAL_RECEIPTS
  }

  /** `receipts[n]` is the receipt that item `n` of the file stands for. */
  ghost predicate ReadsAs(t: Target, items: seq<Json>, receipts: seq<Receipt>) {
    |receipts| == |items| && forall n | 0 <= n < |items| :: ReadReceipt(t, items[n]) == Some(receipts[n])
  }

  /**
   `_load_journal`: a restarted owner gets exactly the receipts and the debt of a journal that is its
   own, well formed, and about configured fixtures; anything else is refused. It never trusts an
   earlier clean end.
   */
  method LoadJournal(id: Identity, t: Target, data: Json) returns (r: Option<Journal>)
    ensures r.Some? <==>
            IsOurs(id, data) && forall n | 0 <= n < |data.fields["resources"].items| ::
                                  ReadReceipt(t, data.fields["resources"].items[n]).Some?
    ensures r.Some? ==> ReadsAs(t, data.fields["resources"].items, r.value.resources)
                        && r.value.appCleanupRequired == data.fields["app_cleanup_required"].b && !r.value.cleanupKnown
  {
    if !IsOurs(id, data) { return None; }
    var items := data.fields["resources"].items;
    var resources: seq<Receipt> := [];
    for n := 0 to |items|
      invariant ReadsAs(t, items[..n], resources)
    {
      var receipt := ReadReceipt(t, items[n]);
      if receipt.None? { return None; }
      resources := resources + [receipt.value];
    }
    assert items[..|items|] == items;
    r := Some(Journal(resources, false, data.fields["app_cleanup_required"].b));
  }

  // ---------------------------------------------------------------- reading inverts writing

  lemma StateNamesAreDistinct(state: ReceiptState)
    ensures NamedState(JString(StateName(state))) == Some(state)
  {
    assert "created"[0] == 'c' && "create-started"[6] == '-' && "created"[6] == 'd';
    assert |"cleanup-started"| != |"cleaned"|;
  }

  /** A written receipt reads back exactly when it is about a configured fixture and its names are text. */
  lemma ReceiptRoundTrip(t: Target, r: Receipt)
    ensures ReadReceipt(t, Private(r)) == Some(r)
            <==> r.fixtureId in t.fixtures && t.fixtures[r.fixtureId] == r.fixture
                 && IsText(JString(r.fixtureId)) && IsText(JString(r.operationRef))
    ensures ReadReceipt(t, Private(r)).Some? ==> ReadReceipt(t, Private(r)) == Some(r)
  {
    StateNamesAreDistinct(r.state);
    var raw := Private(r);
    assert raw.fields.Keys == RECEIPT_FIELDS;
    if r.fixtureId in t.fixtures {
      var f := t.fixtures[r.fixtureId];
      assert Handle(f) == Handle(r.fixture) ==>
          Handle(f).fields["local"] == Handle(r.fixture).fields["local"]
          && Handle(f).fields["remote"] == Handle(r.fixture).fields["remote"];
      assert KindName(f.kind) == KindName(r.fixture.kind) ==> f.kind == r.fixture.kind by {
        assert "forward"[0] == 'f' && "reverse"[0] == 'r';
      }
    }
  }

  ghost predicate Named(resources: seq<Receipt>) {
    forall r | r in resources :: IsText(JString(r.fixtureId)) && IsText(JString(r.operationRef))
  }

  lemma EncodedJournal(id: Identity, j: Journal, installed: Json)
    ensures Encode(id, j, installed).fields.Keys == JOURNAL_FIELDS
  {
  }

  /**
   What `_record` wrote is loaded back unchanged, by the same owner, exactly when it holds at most 64
   receipts. The owner itself never checks that bound when it appends a receipt.
   */
  lemma JournalRoundTrip(id: Identity, t: Target, j: Journal, installed: Json)
    requires Fits(t, j.resources) && Named(j.resources)
    ensures var data := Encode(id, j, installed);
            && (IsOurs(id, data) <==> |j.resources| <= 64)
            && ReadsAs(t, data.fields["resources"].items, j.resources)
            && data.fields["app_cleanup_required"] == JBool(j.appCleanupRequired)
  {
    var data := Encode(id, j, installed);
    EncodedJournal(id, j, installed);
    forall n | 0 <= n < |j.resources|
      ensures ReadReceipt(t, data.fields["resources"].items[n]) == Some(j.resources[n])
    {
      assert j.resources[n] in j.resources;
      ReceiptRoundTrip(t, j.resources[n]);
    }
  }

  /** A journal of another run, owner, generation or device is never accepted. */
  lemma ForeignJournalIsRefused(id: Identity, other: Identity, j: Journal, installed: Json)
    requires id != other
    ensures !IsOurs(id, Encode(other, j, installed))
  {
  }
}
