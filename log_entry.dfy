/**
 * Decoding of one journal entry into the row handed to the log adapter:
 * the quoted-token extraction `format_log_data` and the field mapping of
 * `add_row_from_json`, without the sink call itself (see Controller).
 */
module LogEntry {
  import opened Wrappers
  import opened StdConv

  // ---- format_log_data: the first match of the pattern "(\S*)" ----

  predicate NoSpace(s: string)
  {
    forall k :: 0 <= k < |s| ==> !IsSpace(s[k])
  }

  /** `data[i..k + 1]` is a match of "(\S*)": quotes at i and k, no white space between. */
  predicate IsMatch(data: string, i: int, k: int)
  {
    0 <= i < k < |data| && data[i] == '"' && data[k] == '"'
    && forall m :: i < m < k ==> !IsSpace(data[m])
  }

  /** First white-space index at or after `j`, or `|data|`. */
  function SpaceFrom(data: string, j: nat): (e: nat)
    requires j <= |data|
    ensures j <= e <= |data|
    ensures forall m :: j <= m < e ==> !IsSpace(data[m])
    ensures e < |data| ==> IsSpace(data[e])
    decreases |data| - j
  {
    if j == |data| || IsSpace(data[j]) then j else SpaceFrom(data, j + 1)
  }

  /** The last '"' in `data[lo..hi]`, if any. */
  function LastQuote(data: string, lo: nat, hi: nat): (k: Option<nat>)
    requires lo <= hi <= |data|
    ensures k.Some? ==> lo <= k.value < hi && data[k.value] == '"'
    ensures k.Some? ==> forall m :: k.value < m < hi ==> data[m] != '"'
    ensures k.None? ==> forall m :: lo <= m < hi ==> data[m] != '"'
    decreases hi - lo
  {
    if lo == hi then None
    else if data[hi - 1] == '"' then Some(hi - 1)
    else LastQuote(data, lo, hi - 1)
  }

  /**
   * `std::regex_search` for "(\S*)" from position `i` on, returning the
   * group: the leftmost opening quote that has a closing quote before the
   * next white space, with the greedy `\S*` reaching the furthest such quote.
   */
  function MatchFrom(data: string, i: nat): (r: string)
    requires i <= |data|
    ensures NoSpace(r) && |r| <= |data|
    decreases |data| - i
  {
    if i == |data| then ""
    else if data[i] == '"' then
      match LastQuote(data, i + 1, SpaceFrom(data, i + 1))
      case Some(k) => data[i + 1..k]
      case None => MatchFrom(data, i + 1)
    else MatchFrom(data, i + 1)
  }

  /** `format_log_data`: the text between the first matching pair of quotes, or "" when none. */
  function FormatLogData(data: string): (r: string)
    ensures NoSpace(r)
  {
    MatchFrom(data, 0)
  }

  function Quote(s: string): string
  {
    "\"" + s + "\""
  }

  /** Where the text at `i` is a quote, the matches starting there are exactly the quotes before the next space. */
  lemma MatchesAt(data: string, i: nat, k: int)
    requires i < |data| && data[i] == '"'
    ensures IsMatch(data, i, k) <==> i + 1 <= k < SpaceFrom(data, i + 1) && data[k] == '"'
  {
  }

  /** A closing quote found by the search at `i` makes a match there. */
  lemma QuoteFoundIsMatch(data: string, i: nat)
    requires i < |data| && data[i] == '"'
    ensures var q := LastQuote(data, i + 1, SpaceFrom(data, i + 1));
      q.Some? ==> IsMatch(data, i, q.value)
  {
    var q := LastQuote(data, i + 1, SpaceFrom(data, i + 1));
    if q.Some? {
      MatchesAt(data, i, q.value);
    }
  }

  /** No match starts at or after `i`: the search yields "". */
  lemma {:induction false} MatchFromNone(data: string, i: nat)
    requires i <= |data|
    requires forall i', k :: i <= i' ==> !IsMatch(data, i', k)
    ensures MatchFrom(data, i) == ""
    decreases |data| - i
  {
    if i < |data| {
      if data[i] == '"' {
        QuoteFoundIsMatch(data, i);
      }
      MatchFromNone(data, i + 1);
    }
  }

  /** The search returns the group of the leftmost match, taken as long as possible. */
  lemma {:induction false} MatchFromLeftmostLongest(data: string, j: nat, i: nat, k: nat)
    requires j <= i && IsMatch(data, i, k)
    requires forall i', k' :: j <= i' < i ==> !IsMatch(data, i', k')
    requires forall k' :: k < k' ==> !IsMatch(data, i, k')
    ensures MatchFrom(data, j) == data[i + 1..k]
    decreases i - j
  {
    if j < i {
      if data[j] == '"' {
        QuoteFoundIsMatch(data, j);
      }
      MatchFromLeftmostLongest(data, j + 1, i, k);
    } else {
      var e := SpaceFrom(data, i + 1);
      MatchesAt(data, i, k);
      var q := LastQuote(data, i + 1, e);
      assert q.Some?;
      MatchesAt(data, i, q.value);
    }
  }

  /** `format_log_data` yields "" on text with no quote-delimited whitespace-free run. */
  lemma FormatNoMatch(data: string)
    requires forall i, k :: !IsMatch(data, i, k)
    ensures FormatLogData(data) == ""
  {
    MatchFromNone(data, 0);
  }

  /** `format_log_data` yields the group of the leftmost, longest match. */
  lemma FormatLeftmostLongest(data: string, i: nat, k: nat)
    requires IsMatch(data, i, k)
    requires forall i', k' :: i' < i ==> !IsMatch(data, i', k')
    requires forall k' :: k < k' ==> !IsMatch(data, i, k')
    ensures FormatLogData(data) == data[i + 1..k]
  {
    MatchFromLeftmostLongest(data, 0, i, k);
  }

  /** Unquoting a quoted whitespace-free token gives the token back. */
  lemma FormatQuoted(s: string)
    requires NoSpace(s)
    ensures FormatLogData(Quote(s)) == s
  {
    var data := Quote(s);
    assert forall m :: 0 < m < |data| - 1 ==> data[m] == s[m - 1];
    FormatLeftmostLongest(data, 0, |data| - 1);
    assert data[1..|data| - 1] == s;
  }

  // ---- add_row_from_json: one journal entry to one adapter row ----

  /**
   * A parsed journal entry. JsonCpp's `asString()` on a missing member
   * yields "", so an absent key reads as "".
   */
  type Entry = map<string, string>

  function Field(e: Entry, key: string): string
  {
    if key in e then e[key] else ""
  }

  const TimestampKey := "_SOURCE_REALTIME_TIMESTAMP"
  const TypeKey := "_AUDIT_FIELD_APPARMOR"
  const PidKey := "_PID"
  const NameKey := "_AUDIT_FIELD_NAME"
  const OperationKey := "_AUDIT_FIELD_OPERATION"
  const ProfileKey := "_AUDIT_FIELD_PROFILE"
  const CapnameKey := "_AUDIT_FIELD_CAPNAME"
  const CapabilityKey := "_AUDIT_FIELD_CAPABILITY"
  const RequestedMaskKey := "_AUDIT_FIELD_REQUESTED_MASK"
  const DeniedMaskKey := "_AUDIT_FIELD_DENIED_MASK"

  const MicrosPerSecond: int := 1_000_000

  /** The arguments of one `put_data` call on the adapter, in its parameter order. */
  datatype Row = Row(timestamp: int, kind: string, operation: string, name: string, pid: nat, status: string)

  /** Operation, name and status of an entry, chosen by its unquoted event type. */
  datatype Layout = Layout(operation: string, name: string, status: string)

  function LayoutOf(e: Entry, kind: string): (l: Layout)
    ensures NoSpace(l.operation)
  {
    if kind == "DENIED" then
      var operation := FormatLogData(Field(e, OperationKey));
      var status :=
        if operation == "capable" then
          "capname: " + Field(e, CapnameKey) + " capability: " + Field(e, CapabilityKey)
        else
          "requested mask: " + FormatLogData(Field(e, RequestedMaskKey))
          + " denied mask: " + FormatLogData(Field(e, DeniedMaskKey));
      Layout(operation, FormatLogData(Field(e, ProfileKey)), status)
    else
      // "STATUS", and every other type: same fields (the unknown type is only reported)
      Layout(FormatLogData(Field(e, OperationKey)), Field(e, NameKey), FormatLogData(Field(e, ProfileKey)))
  }

  /**
   * The row `add_row_from_json` hands to `put_data`, or the exception that
   * stops it: the timestamp is converted first, the pid last.
   */
  function RowFromEntry(e: Entry): (r: Result<Row, ConvError>)
    ensures r.Ok? <==> Stol(Field(e, TimestampKey)).Ok? && Stoul(Field(e, PidKey)).Ok?
    ensures r.Err? && Stol(Field(e, TimestampKey)).Err? ==> r.error == Stol(Field(e, TimestampKey)).error
    ensures r.Ok? ==> r.value.kind == FormatLogData(Field(e, TypeKey)) && NoSpace(r.value.kind)
  {
    match Stol(Field(e, TimestampKey))
    case Err(error) => Err(error)
    case Ok(micros) =>
      var kind := FormatLogData(Field(e, TypeKey));
      var layout := LayoutOf(e, kind);
      match Stoul(Field(e, PidKey))
      case Err(error) => Err(error)
      case Ok(pid) =>
        Ok(Row(TruncDiv(micros, MicrosPerSecond), kind, layout.operation, layout.name, pid, layout.status))
  }

  // ---- Entries as the journal writes them, and what they decode to ----

  /** The fields every event carries: microsecond timestamp, quoted type and pid, in decimal. */
  predicate Carries(e: Entry, micros: nat, kind: string, pid: nat)
  {
    && Field(e, TimestampKey) == ToDecimal(micros)
    && Field(e, TypeKey) == Quote(kind)
    && Field(e, PidKey) == ToDecimal(pid)
  }

  lemma EventFields(e: Entry, micros: nat, kind: string, pid: nat)
    requires Carries(e, micros, kind, pid) && NoSpace(kind)
    requires micros <= LongMax && pid <= ULongMax
    ensures Stol(Field(e, TimestampKey)) == Ok(micros)
    ensures Stoul(Field(e, PidKey)) == Ok(pid)
    ensures FormatLogData(Field(e, TypeKey)) == kind
  {
    StolOfDecimal(micros);
    StoulOfDecimal(pid);
    FormatQuoted(kind);
  }

  /**
   * A STATUS entry: the row carries the whole seconds of the timestamp, the
   * pid, the raw name, and the operation and profile without their quotes.
   */
  lemma StatusEntryDecodes(e: Entry, micros: nat, pid: nat, operation: string, profile: string)
    requires Carries(e, micros, "STATUS", pid)
    requires micros <= LongMax && pid <= ULongMax
    requires Field(e, OperationKey) == Quote(operation) && NoSpace(operation)
    requires Field(e, ProfileKey) == Quote(profile) && NoSpace(profile)
    ensures RowFromEntry(e) == Ok(Row(micros / MicrosPerSecond, "STATUS", operation, Field(e, NameKey), pid, profile))
  {
    EventFields(e, micros, "STATUS", pid);
    FormatQuoted(operation);
    FormatQuoted(profile);
  }

  /**
   * A DENIED capability check: the name is the unquoted profile and the
   * status joins the raw capability name and number.
   */
  lemma DeniedCapableDecodes(e: Entry, micros: nat, pid: nat, profile: string)
    requires Carries(e, micros, "DENIED", pid)
    requires micros <= LongMax && pid <= ULongMax
    requires Field(e, OperationKey) == Quote("capable")
    requires Field(e, ProfileKey) == Quote(profile) && NoSpace(profile)
    ensures RowFromEntry(e) == Ok(Row(micros / MicrosPerSecond, "DENIED", "capable", profile, pid,
      "capname: " + Field(e, CapnameKey) + " capability: " + Field(e, CapabilityKey)))
  {
    EventFields(e, micros, "DENIED", pid);
    FormatQuoted("capable");
    FormatQuoted(profile);
  }

  /**
   * Any other DENIED operation: the status names the requested and the
   * denied mask, both unquoted.
   */
  lemma DeniedMaskDecodes(e: Entry, micros: nat, pid: nat, profile: string, operation: string, requested: string, denied: string)
    requires Carries(e, micros, "DENIED", pid)
    requires micros <= LongMax && pid <= ULongMax
    requires Field(e, OperationKey) == Quote(operation) && NoSpace(operation) && operation != "capable"
    requires Field(e, ProfileKey) == Quote(profile) && NoSpace(profile)
    requires Field(e, RequestedMaskKey) == Quote(requested) && NoSpace(requested)
    requires Field(e, DeniedMaskKey) == Quote(denied) && NoSpace(denied)
    ensures RowFromEntry(e) == Ok(Row(micros / MicrosPerSecond, "DENIED", operation, profile, pid,
      "requested mask: " + requested + " denied mask: " + denied))
  {
    EventFields(e, micros, "DENIED", pid);
    FormatQuoted(operation);
    FormatQuoted(profile);
    FormatQuoted(requested);
    FormatQuoted(denied);
  }

  /**
   * An unrecognised event type is not rejected: the entry decodes exactly
   * as it would were its type STATUS, except that its own type is forwarded.
   */
  lemma UnknownTypeFallsBack(e: Entry)
    requires FormatLogData(Field(e, TypeKey)) != "STATUS" && FormatLogData(Field(e, TypeKey)) != "DENIED"
    ensures var s := RowFromEntry(e[TypeKey := Quote("STATUS")]);
      RowFromEntry(e) == if s.Ok? then Ok(s.value.(kind := FormatLogData(Field(e, TypeKey)))) else s
  {
    FormatQuoted("STATUS");
    var e' := e[TypeKey := Quote("STATUS")];
    assert Field(e', TimestampKey) == Field(e, TimestampKey);
    assert Field(e', PidKey) == Field(e, PidKey);
    assert Field(e', OperationKey) == Field(e, OperationKey);
    assert Field(e', NameKey) == Field(e, NameKey);
    assert Field(e', ProfileKey) == Field(e, ProfileKey);
    var kind := FormatLogData(Field(e, TypeKey));
    assert LayoutOf(e', "STATUS") == LayoutOf(e, kind);
    var micros, pid := Stol(Field(e, TimestampKey)), Stoul(Field(e, PidKey));
    if micros.Ok? && pid.Ok? {
      var l := LayoutOf(e, kind);
      var row := Row(TruncDiv(micros.value, MicrosPerSecond), "STATUS", l.operation, l.name, pid.value, l.status);
      assert RowFromEntry(e') == Ok(row);
      assert RowFromEntry(e) == Ok(row.(kind := kind));
    }
  }

  /** A timestamp or pid with no digits makes the entry fail with invalid_argument. */
  lemma NonNumericFieldFails(e: Entry)
    requires (forall k :: 0 <= k < |Field(e, TimestampKey)| ==> !IsDigit(Field(e, TimestampKey)[k]))
          || (forall k :: 0 <= k < |Field(e, PidKey)| ==> !IsDigit(Field(e, PidKey)[k]))
    ensures RowFromEntry(e) == Err(InvalidArgument) || RowFromEntry(e) == Err(OutOfRange)
    ensures Stol(Field(e, TimestampKey)).Ok? ==> RowFromEntry(e) == Err(InvalidArgument)
  {
    if forall k :: 0 <= k < |Field(e, TimestampKey)| ==> !IsDigit(Field(e, TimestampKey)[k]) {
      NonNumericRejected(Field(e, TimestampKey));
    } else {
      NonNumericRejected(Field(e, PidKey));
    }
  }
}
