// The lists of src/admin/provisioning.ts as they stand, and what follows for them.
module GrantLists {
  import opened Wrappers
  import opened Provisioning

  const ADMIN_READER_TABLES: seq<string> := [
    "credit_consumption", "promo_campaigns", "promo_redemptions", "letter_jobs", "letter_status_history",
    "provider_routing", "maintenance_tasks", "migrations", "orders", "commerce_order_events",
    "commerce_pack_refunds", "commerce_operational_alerts", "commerce_operator_audit_events",
    "stripe_webhook_events", "stripe_disputes", "image_entitlements", "image_generation_reservations",
    "gift_letters", "gift_codes", "daily_limit_overrides", "daily_limit_refusals", "daily_limit_defaults",
    "admin_environment_marker", "admin_audit_events", "admin_command_runs", "admin_operations"]

  const USERS_READS: seq<string> := [
    "user_id", "email", "credits", "credits_purchased", "credits_used", "created_at", "updated_at", "tier",
    "tier_override", "tier_calculated_at", "return_address_validated_at", "image_generations_used",
    "sends_blocked_at", "sends_blocked_reason"]

  const LETTERS_READS: seq<string> := [
    "letter_id", "user_id", "credits_cost", "status", "tracking_id", "created_at", "sent_at", "provider",
    "cost_cents", "expected_delivery", "updated_at", "status_updated_at", "provider_raw_status", "mail_type",
    "funding_type", "funding_order_id", "redacted_at"]

  const LETTER_DRAFTS_READS: seq<string> := [
    "draft_id", "user_id", "required_credits", "status", "expires_at", "consumed_at", "consumed_letter_id",
    "created_at", "updated_at", "mail_type", "postcard_size", "layout_type", "redacted_at", "is_gift_send"]

  const PERSONAL_ACCESS_TOKENS_READS: seq<string> := [
    "token_id", "user_id", "name", "token_prefix", "status", "expires_at", "last_used_at", "created_at",
    "revoked_at"]

  const FEATURE_REQUESTS_READS: seq<string> := [
    "request_id", "user_id", "title", "description", "category", "attempted_action", "status", "admin_notes",
    "created_at", "updated_at", "reviewed_at", "resolved_at", "contact_consent"]

  const REDACTED_CONTENT_QUARANTINE_READS: seq<string> := [
    "quarantine_id", "source_table", "source_id", "quarantined_at", "purge_after"]

  const CREDIT_TRANSACTIONS_READS: seq<string> := [
    "transaction_id", "user_id", "amount", "balance_after", "type", "reference_type", "reference_id",
    "created_at"]

  const CREDIT_LEDGER_READS: seq<string> := [
    "ledger_id", "user_id", "initial_amount", "remaining_amount", "source_type", "source_reference_id",
    "source_order_id", "source_metadata", "activated_at", "expires_at", "expiration_policy", "expiration_days",
    "status", "related_ledger_id", "created_at", "updated_at"]

  const ADMIN_READER_COLUMN_GRANTS: seq<(string, seq<string>)> := [
    ("users", USERS_READS),
    ("letters", LETTERS_READS),
    ("letter_drafts", LETTER_DRAFTS_READS),
    ("personal_access_tokens", PERSONAL_ACCESS_TOKENS_READS),
    ("feature_requests", FEATURE_REQUESTS_READS),
    ("redacted_content_quarantine", REDACTED_CONTENT_QUARANTINE_READS),
    ("credit_transactions", CREDIT_TRANSACTIONS_READS),
    ("credit_ledger", CREDIT_LEDGER_READS)
  ]

  const ADMIN_OPERATOR_FULL_SELECT_TABLES: seq<string> := ["users", "letters", "letter_drafts"]

  const ADMIN_OPERATOR_WRITE_GRANTS: seq<(string, Writes)> := [
    ("users", Writes(Columns(["user_id", "email", "credits", "credits_purchased", "credits_used"]), Columns([
      "credits", "credits_purchased", "image_generations_used", "sends_blocked_at", "sends_blocked_reason",
      "tier_override", "updated_at"]), false)),
    ("orders", Writes(Absent, Columns([
      "amount_refunded_cents", "completed_at", "credits_refunded", "fulfilled_at", "held_at",
      "hold_previous_status", "hold_reason", "last_error", "last_error_code", "refund_pending_at", "status",
      "updated_at"]), false)),
    ("letters", Writes(Absent, Columns([
      "carrier_tracking_number", "provider", "provider_raw_status", "sent_at", "status", "status_updated_at",
      "tracking_id", "updated_at"]), false)),
    ("letter_jobs", Writes(Absent, Columns([
      "attempts", "completed_at", "error_message", "held_at", "hold_reason", "last_error", "locked_at",
      "max_attempts", "next_attempt_at", "operator_resolution", "provider_order_id", "provider_outcome",
      "resolved_at", "scheduled_at", "status", "updated_at"]), false)),
    ("credit_ledger", Writes(WholeTable, WholeTable, false)),
    ("credit_transactions", Writes(WholeTable, Absent, false)),
    ("credit_consumption", Writes(WholeTable, Absent, false)),
    ("letter_status_history", Writes(WholeTable, Absent, false)),
    ("commerce_operational_alerts", Writes(WholeTable, WholeTable, false)),
    ("commerce_operator_audit_events", Writes(WholeTable, Absent, false)),
    ("commerce_order_events", Writes(WholeTable, Absent, false)),
    ("commerce_pack_refunds", Writes(WholeTable, WholeTable, false)),
    ("image_entitlements", Writes(WholeTable, WholeTable, false)),
    ("image_generation_reservations", Writes(Absent, WholeTable, false)),
    ("gift_letters", Writes(WholeTable, WholeTable, false)),
    ("gift_codes", Writes(Absent, Columns(["status", "voided_at", "void_reason", "updated_at"]), false)),
    ("promo_campaigns", Writes(WholeTable, WholeTable, true)),
    ("daily_limit_overrides", Writes(WholeTable, Columns(["cleared_at", "cleared_by_command_id", "updated_at"]),
        false)),
    ("provider_routing", Writes(Absent, WholeTable, false)),
    ("admin_operations", Writes(WholeTable, Absent, false))
  ]

  const LISTS := Lists(
    ADMIN_READER_TABLES, ADMIN_READER_COLUMN_GRANTS, ADMIN_OPERATOR_FULL_SELECT_TABLES, ADMIN_OPERATOR_WRITE_GRANTS)

  // The last revoke takes back nothing that the lists granted.
  lemma {:induction false} TrailingRevokeRemovesNothing(q: set<string>, g: Grant)
    requires g.role in BOTH && Granted(LISTS, q, g)
    ensures !RewritesAudit(g)
  {
    if g.target == Table("admin_audit_events") {
      forall i | 0 <= i < |ADMIN_OPERATOR_WRITE_GRANTS|
        ensures ADMIN_OPERATOR_WRITE_GRANTS[i].0 != "admin_audit_events"
      {
        NotTheAuditEvents(i);
      }
    }
  }

  lemma {:induction false} NotTheAuditEvents(i: nat)
    requires i < |ADMIN_OPERATOR_WRITE_GRANTS|
    ensures ADMIN_OPERATOR_WRITE_GRANTS[i].0 != "admin_audit_events"
  {
    var name := ADMIN_OPERATOR_WRITE_GRANTS[i].0;
    if |name| == |"admin_audit_events"| {
      assert name[0] != 'a';
    }
  }

  const DRAFT_CONTENT: seq<string> := [
    "body_text", "sign_off", "sender", "recipient", "sender_validation", "recipient_validation", "preview_html",
    "front_image_data", "front_image_url", "header_image_data", "header_image_url", "inline_image_data",
    "inline_image_url", "signature_image", "stationery", "postcard_front"]

  // Letter content and recipients, what a draft says and shows (its text, images and
  // signature), return addresses, token hashes, contact emails and free-text descriptions.
  const WITHHELD: seq<(string, seq<string>)> := [
    ("users", ["return_address"]),
    ("letters", ["content", "recipient", "preview_html"]),
    ("letter_drafts", DRAFT_CONTENT),
    ("personal_access_tokens", ["token_hash", "token_lookup"]),
    ("feature_requests", ["contact_email"]),
    ("redacted_content_quarantine", ["content"]),
    ("credit_transactions", ["description"]),
    ("credit_ledger", ["description"])
  ]

  // The two lists name the same tables, in the same order, each once.
  lemma {:induction false} TablesAreNamedOnce(i: nat, j: nat)
    requires i < |WITHHELD| && j < |ADMIN_READER_COLUMN_GRANTS|
    ensures |WITHHELD| == |ADMIN_READER_COLUMN_GRANTS| && WITHHELD[i].0 == ADMIN_READER_COLUMN_GRANTS[i].0
    ensures WITHHELD[i].0 == ADMIN_READER_COLUMN_GRANTS[j].0 ==> i == j
  {
    var t, u := WITHHELD[i].0, ADMIN_READER_COLUMN_GRANTS[j].0;
    if |t| == |u| && i != j { assert t[0] != u[0]; }
  }

  lemma {:induction false} NotReadWhole(i: nat)
    requires i < |WITHHELD|
    ensures WITHHELD[i].0 !in ADMIN_READER_TABLES
  {
    var t := WITHHELD[i].0;
    forall k | 0 <= k < |ADMIN_READER_TABLES| ensures ADMIN_READER_TABLES[k] != t {
      assert |ADMIN_READER_TABLES[k]| == |t| ==> ADMIN_READER_TABLES[k][0] != t[0];
    }
  }

  lemma {:induction false} DraftContentIsNotRead(k: nat, c: string)
    requires k < |LETTER_DRAFTS_READS| && c in DRAFT_CONTENT
    ensures LETTER_DRAFTS_READS[k] != c
  {
    var u := LETTER_DRAFTS_READS[k];
    if |u| == |c| { assert u[0] != c[0] || u[1] != c[1]; }
  }

  lemma {:induction false} NotReadByColumn(i: nat, c: string)
    requires i < |WITHHELD| && c in WITHHELD[i].1
    ensures c !in ADMIN_READER_COLUMN_GRANTS[i].1
  {
    var columns := ADMIN_READER_COLUMN_GRANTS[i].1;
    forall k | 0 <= k < |columns| ensures columns[k] != c {
      var u := columns[k];
      if i == 2 {
        DraftContentIsNotRead(k, c);
      } else if |u| == |c| {
        assert u[0] != c[0] || u[1] != c[1] || u[2] != c[2] || u[6] != c[6];
      }
    }
  }

  // The reader can never select a withheld column, whatever it held before.
  lemma {:induction false} ContentIsWithheld(s: State, q: set<string>, i: nat, column: string)
    requires i < |WITHHELD| && column in WITHHELD[i].1
    requires forall c :: Grant(Everyone, Table(WITHHELD[i].0), SELECT, c) !in s.grants
    ensures !CanRead(RunAll(s, q, Built(LISTS)), Reader, WITHHELD[i].0, column)
  {
    ReaderReadsItsListsOnly(s, q, LISTS, WITHHELD[i].0, column);
    NotReadWhole(i);
    NotReadByColumn(i, column);
    forall j | 0 <= j < |ADMIN_READER_COLUMN_GRANTS|
      ensures !(ADMIN_READER_COLUMN_GRANTS[j].0 == WITHHELD[i].0 && column in ADMIN_READER_COLUMN_GRANTS[j].1)
    {
      TablesAreNamedOnce(i, j);
    }
  }

  // ---- What the operator may not rewrite ----------------------------------------------

  // The columns that say which command a run is.
  const RUN_IDENTITY: seq<string> := [
    "environment", "idempotency_key", "actor_sid", "action", "target_type", "target_id", "preview_digest",
    "expected_version"]

  lemma {:induction false} IdentityIsNotUpdated(i: nat)
    requires i < |RUN_IDENTITY|
    ensures RUN_IDENTITY[i] !in COMMAND_RUN_UPDATES
  {
    forall k | 0 <= k < |COMMAND_RUN_UPDATES| ensures COMMAND_RUN_UPDATES[k] != RUN_IDENTITY[i] {
      var c, u := RUN_IDENTITY[i], COMMAND_RUN_UPDATES[k];
      if |c| == |u| { assert c[0] != u[0]; }
    }
  }

  lemma {:induction false} NotTheRuns(i: nat)
    requires i < |ADMIN_OPERATOR_WRITE_GRANTS|
    ensures ADMIN_OPERATOR_WRITE_GRANTS[i].0 != "admin_command_runs"
  {
    var name := ADMIN_OPERATOR_WRITE_GRANTS[i].0;
    if |name| == |"admin_command_runs"| {
      assert name[0] != 'a';
    }
  }

  // Neither role can make a command run another command: the table's updates are the
  // ones that mark and complete a run.
  lemma {:induction false} RunIdentityIsFixed(s: State, q: set<string>, role: Role, i: nat)
    requires role in BOTH && i < |RUN_IDENTITY|
    ensures Grant(role, Table("admin_command_runs"), UPDATE, None) !in RunAll(s, q, Built(LISTS)).grants
    ensures Grant(role, Table("admin_command_runs"), UPDATE, Some(RUN_IDENTITY[i]))
         !in RunAll(s, q, Built(LISTS)).grants
  {
    IdentityIsNotUpdated(i);
    ProvisionsExactly(s, q, LISTS, Grant(role, Table("admin_command_runs"), UPDATE, None));
    ProvisionsExactly(s, q, LISTS, Grant(role, Table("admin_command_runs"), UPDATE, Some(RUN_IDENTITY[i])));
    forall j | 0 <= j < |ADMIN_OPERATOR_WRITE_GRANTS|
      ensures ADMIN_OPERATOR_WRITE_GRANTS[j].0 != "admin_command_runs"
    {
      NotTheRuns(j);
    }
    assert |"admin_command_runs"| != |"admin_operations"| && |"admin_command_runs"| != |"admin_totp_counters"|;
  }
}
