/** Roaming transfer batches: audit totals derived from the events, and the validator that recomputes them. */
module TapBatch {
  import opened Wrappers
  import opened Digits

  // An encoded call event.
  type Tlv = seq<nat>

  datatype Record = Record(imsi: string, timestamp: string, offset: string, charge: int, units: int, incoming: int,
                           outgoing: int)

  // A local time and the offset it is local to.
  datatype Stamp = Stamp(local: string, offset: string)

  datatype ChargeDetail = ChargeDetail(chargeType: string, charge: Option<int>, chargeable: Option<int>, charged: Option<int>)

  datatype ChargeInfo = ChargeInfo(chargedItem: string, details: seq<ChargeDetail>)

  datatype Usage = Usage(incoming: int, outgoing: int, infos: seq<ChargeInfo>)

  datatype Call = Call(imsi: string, start: string, usage: Option<Usage>)

  // The ASN.1 codec of a GPRS call.
  datatype Codec = Codec(encode: Call -> Tlv, decode: Tlv -> Option<Call>)

  ghost predicate RoundTrips(codec: Codec) { forall c: Call :: codec.decode(codec.encode(c)) == Some(c) }

  // `others` holds the nine kinds of events that are not GPRS calls.
  datatype Events = Events(gprs: seq<Tlv>, others: seq<seq<Tlv>>)

  datatype Control = Control(sender: Option<string>, recipient: Option<string>, sequence: Option<string>,
                             created: Option<Stamp>, specification: int, release: int)

  datatype Audit = Audit(total: Option<int>, count: Option<int>, earliest: Option<Stamp>, latest: Option<Stamp>)

  datatype Batch = Batch(control: Option<Control>, events: Option<Events>, audit: Option<Audit>)

  datatype Totals = Totals(charge: int, count: nat, others: nat)

  // ---- Totals -------------------------------------------------------------------------------------

  function DetailsCharge(details: seq<ChargeDetail>): int {
    if details == [] then 0
    else
      var last := details[|details| - 1].charge;
      DetailsCharge(details[..|details| - 1]) + if last.Some? then last.value else 0
  }

  function InfosCharge(infos: seq<ChargeInfo>): int {
    if infos == [] then 0 else InfosCharge(infos[..|infos| - 1]) + DetailsCharge(infos[|infos| - 1].details)
  }

  function CallCharge(c: Call): int { if c.usage.None? then 0 else InfosCharge(c.usage.value.infos) }

  // An event that does not decode counts, but charges nothing.
  function TlvCharge(codec: Codec, tlv: Tlv): int {
    var c := codec.decode(tlv);
    if c.None? then 0 else CallCharge(c.value)
  }

  function ListCharge(codec: Codec, tlvs: seq<Tlv>): int {
    if tlvs == [] then 0 else ListCharge(codec, tlvs[..|tlvs| - 1]) + TlvCharge(codec, tlvs[|tlvs| - 1])
  }

  function Count(buckets: seq<seq<Tlv>>): nat {
    if buckets == [] then 0 else Count(buckets[..|buckets| - 1]) + |buckets[|buckets| - 1]|
  }

  function TotalsOf(codec: Codec, events: Events): Totals {
    Totals(ListCharge(codec, events.gprs), |events.gprs| + Count(events.others), Count(events.others))
  }

  method ChargeOfTlv(codec: Codec, tlv: Tlv) returns (total: int)
    ensures total == TlvCharge(codec, tlv)
  {
    total := 0;
    var c := codec.decode(tlv);
    if c.None? || c.value.usage.None? {
      return;
    }
    var infos := c.value.usage.value.infos;
    for i := 0 to |infos|
      invariant total == InfosCharge(infos[..i])
    {
      assert infos[..i + 1][..i] == infos[..i];
      var details := infos[i].details;
      var sum := 0;
      for j := 0 to |details|
        invariant sum == DetailsCharge(details[..j])
      {
        assert details[..j + 1][..j] == details[..j];
        if details[j].charge.Some? {
          sum := sum + details[j].charge.value;
        }
      }
      assert details[..|details|] == details;
      total := total + sum;
    }
    assert infos[..|infos|] == infos;
  }

  method ComputeTotals(codec: Codec, events: Events) returns (totals: Totals)
    ensures totals == TotalsOf(codec, events)
  {
    var charge := 0;
    for i := 0 to |events.gprs|
      invariant charge == ListCharge(codec, events.gprs[..i])
    {
      assert events.gprs[..i + 1][..i] == events.gprs[..i];
      var one := ChargeOfTlv(codec, events.gprs[i]);
      charge := charge + one;
    }
    assert events.gprs[..|events.gprs|] == events.gprs;
    var others: nat := 0;
    for i := 0 to |events.others|
      invariant others == Count(events.others[..i])
    {
      assert events.others[..i + 1][..i] == events.others[..i];
      others := others + |events.others[i]|;
    }
    assert events.others[..|events.others|] == events.others;
    totals := Totals(charge, |events.gprs| + others, others);
  }

  // ---- Sequence numbers ---------------------------------------------------------------------------

  const WRAP := 100_000

  /** Five characters with leading zeros; it rolls over at 99999. */
  function FormatSequence(value: nat): (s: string)
    ensures |s| == 5 && AllDigits(s) && Value(s) == value % WRAP
  {
    var digits := ToString(value % WRAP);
    ToStringLength(value % WRAP, 5);
    ValueZeros(5 - |digits|);
    ValueConcat(Zeros(5 - |digits|), digits);
    Zeros(5 - |digits|) + digits
  }

  /** Two sequence numbers look alike exactly when they are a whole number of rollovers apart. */
  lemma SequencesAlike(a: nat, b: nat)
    ensures FormatSequence(a) == FormatSequence(b) <==> a % WRAP == b % WRAP
  {
    if a % WRAP == b % WRAP {
      ValueInjective(FormatSequence(a), FormatSequence(b));
    }
  }

  // ---- Building -----------------------------------------------------------------------------------

  function StampOf(r: Record): Stamp { Stamp(r.timestamp, r.offset) }

  function ToCall(r: Record): Call {
    Call(r.imsi, r.timestamp,
         Some(Usage(r.incoming, r.outgoing,
                    [ChargeInfo("X", [ChargeDetail("00", Some(r.charge), Some(r.units), Some(r.units))])])))
  }

  function Encoded(codec: Codec, records: seq<Record>): (tlvs: seq<Tlv>)
    ensures |tlvs| == |records| && forall i | 0 <= i < |records| :: tlvs[i] == codec.encode(ToCall(records[i]))
  {
    seq(|records|, i requires 0 <= i < |records| => codec.encode(ToCall(records[i])))
  }

  // A count stored in 32 bits, and a 32-bit count read as an unsigned 64-bit one.
  function ToInt32(n: int): int {
    var m := n % 0x1_0000_0000;
    if m >= 0x8000_0000 then m - 0x1_0000_0000 else m
  }

  function ToSize(n: int): int { n % 0x1_0000_0000_0000_0000 }

  // Local times are compared as texts; the offset takes no part.
  predicate Below(a: string, b: string) {
    b != "" && (a == "" || a[0] < b[0] || (a[0] == b[0] && Below(a[1..], b[1..])))
  }

  lemma {:induction false} BelowOrders(a: string, b: string, c: string)
    ensures !Below(a, a)
    ensures Below(a, b) || a == b || Below(b, a)
    ensures Below(a, b) ==> !Below(b, a)
    ensures Below(a, b) && Below(b, c) ==> Below(a, c)
    decreases |a| + |b| + |c|
  {
    if a != "" || b != "" || c != "" {
      BelowOrders(if a == "" then "" else a[1..], if b == "" then "" else b[1..], if c == "" then "" else c[1..]);
    }
  }

  // The first of the least and the last of the greatest.
  function Earliest(records: seq<Record>): (i: nat)
    requires records != []
    ensures i < |records|
  {
    var n := |records| - 1;
    if n == 0 then 0
    else
      var i := Earliest(records[..n]);
      if Below(records[n].timestamp, records[i].timestamp) then n else i
  }

  function Latest(records: seq<Record>): (i: nat)
    requires records != []
    ensures i < |records|
  {
    var n := |records| - 1;
    if n == 0 then 0
    else
      var i := Latest(records[..n]);
      if Below(records[n].timestamp, records[i].timestamp) then i else n
  }

  predicate IsEarliest(records: seq<Record>, i: nat) {
    && i < |records|
    && forall j | 0 <= j < |records| ::
         && !Below(records[j].timestamp, records[i].timestamp)
         && (j < i ==> Below(records[i].timestamp, records[j].timestamp))
  }

  predicate IsLatest(records: seq<Record>, i: nat) {
    && i < |records|
    && forall j | 0 <= j < |records| ::
         && !Below(records[i].timestamp, records[j].timestamp)
         && (j > i ==> Below(records[j].timestamp, records[i].timestamp))
  }

  lemma {:induction false} SpanHolds(records: seq<Record>)
    requires records != []
    ensures IsEarliest(records, Earliest(records)) && IsLatest(records, Latest(records))
  {
    var n := |records| - 1;
    if n == 0 {
      BelowOrders(records[0].timestamp, records[0].timestamp, records[0].timestamp);
    } else {
      SpanHolds(records[..n]);
      var first, last, latest := Earliest(records[..n]), Latest(records[..n]), records[n].timestamp;
      forall j | 0 <= j < |records|
        ensures !Below(records[j].timestamp, records[Earliest(records)].timestamp)
        ensures j < Earliest(records) ==> Below(records[Earliest(records)].timestamp, records[j].timestamp)
        ensures !Below(records[Latest(records)].timestamp, records[j].timestamp)
        ensures j > Latest(records) ==> Below(records[j].timestamp, records[Latest(records)].timestamp)
      {
        var t := records[j].timestamp;
        assert j < n ==> records[..n][j] == records[j];
        BelowOrders(latest, latest, latest);
        BelowOrders(latest, records[first].timestamp, t);
        BelowOrders(t, latest, records[first].timestamp);
        BelowOrders(t, records[last].timestamp, latest);
        BelowOrders(latest, t, records[last].timestamp);
        BelowOrders(records[last].timestamp, latest, t);
      }
    }
  }

  /** The call times of the audit block bound those of all records, as local times, and ties go to the outermost. */
  lemma SpanExactly(records: seq<Record>, i: nat)
    requires records != []
    ensures IsEarliest(records, i) <==> i == Earliest(records)
    ensures IsLatest(records, i) <==> i == Latest(records)
  {
    SpanHolds(records);
  }

  function Build(codec: Codec, sender: string, recipient: string, sequence: nat, created: string, records: seq<Record>): Batch {
    var events := Events(Encoded(codec, records), []);
    var totals := TotalsOf(codec, events);
    Batch(Some(Control(Some(sender), Some(recipient), Some(FormatSequence(sequence)), Some(Stamp(created, "+0000")), 3, 12)),
          Some(events),
          Some(Audit(Some(totals.charge), Some(ToInt32(totals.count)),
                     if records == [] then None else Some(StampOf(records[Earliest(records)])),
                     if records == [] then None else Some(StampOf(records[Latest(records)])))))
  }

  // One pass over the records.
  method MinMax(records: seq<Record>) returns (first: nat, last: nat)
    requires records != []
    ensures first == Earliest(records) && last == Latest(records)
  {
    first, last := 0, 0;
    for i := 1 to |records|
      invariant first == Earliest(records[..i]) && last == Latest(records[..i])
    {
      assert records[..i + 1][..i] == records[..i];
      if Below(records[i].timestamp, records[first].timestamp) {
        first := i;
      }
      if !Below(records[i].timestamp, records[last].timestamp) {
        last := i;
      }
    }
    assert records[..|records|] == records;
  }

  /** No caller passes a total: every one is computed from the events just encoded. */
  method BuildBatch(codec: Codec, sender: string, recipient: string, sequence: nat, created: string, records: seq<Record>)
    returns (batch: Batch)
    ensures batch == Build(codec, sender, recipient, sequence, created, records)
  {
    var gprs: seq<Tlv> := [];
    for i := 0 to |records|
      invariant gprs == Encoded(codec, records)[..i]
    {
      gprs := gprs + [codec.encode(ToCall(records[i]))];
    }
    assert gprs == Encoded(codec, records);
    var totals := ComputeTotals(codec, Events(gprs, []));
    var audit := Audit(Some(totals.charge), Some(ToInt32(totals.count)), None, None);
    if records != [] {
      var first, last := MinMax(records);
      audit := audit.(earliest := Some(StampOf(records[first])), latest := Some(StampOf(records[last])));
    }
    batch := Batch(Some(Control(Some(sender), Some(recipient), Some(FormatSequence(sequence)),
                                Some(Stamp(created, "+0000")), 3, 12)),
                   Some(Events(gprs, [])), Some(audit));
  }

  function SumCharges(records: seq<Record>): int {
    if records == [] then 0 else SumCharges(records[..|records| - 1]) + records[|records| - 1].charge
  }

  lemma {:induction false} EncodedCharge(codec: Codec, records: seq<Record>)
    requires RoundTrips(codec)
    ensures ListCharge(codec, Encoded(codec, records)) == SumCharges(records)
  {
    if records != [] {
      var front, last := records[..|records| - 1], records[|records| - 1];
      EncodedCharge(codec, front);
      assert Encoded(codec, records)[..|records| - 1] == Encoded(codec, front);
      OneCharge(last);
      assert codec.decode(codec.encode(ToCall(last))) == Some(ToCall(last));
    }
  }

  lemma OneCharge(r: Record)
    ensures CallCharge(ToCall(r)) == r.charge
  {
    var detail := ChargeDetail("00", Some(r.charge), Some(r.units), Some(r.units));
    OneInfo(ChargeInfo("X", [detail]));
  }

  lemma OneInfo(i: ChargeInfo)
    ensures InfosCharge([i]) == DetailsCharge(i.details)
  {
    assert [i][..0] == [];
  }

  // ---- Validating ---------------------------------------------------------------------------------

  datatype Finding =
    | NoControl
    | NoSender
    | NoRecipient
    | BadSequence
    | NoAudit
    | NoCount
    | CountDiffers(says: int, carries: nat)
    | NoTotal
    | TotalUnverified(others: nat)
    | TotalDiffers(says: int, sum: int)

  predicate Absent(o: Option<string>) { o.None? || o.value == "" }

  method ValidateControl(control: Option<Control>) returns (findings: seq<Finding>)
    ensures findings == ControlFindings(control)
  {
    findings := [];
    match control {
      case None =>
        findings := findings + [NoControl];
      case Some(c) =>
        if c.sender.None? || c.sender.value == "" {
          findings := findings + [NoSender];
        }
        if c.recipient.None? || c.recipient.value == "" {
          findings := findings + [NoRecipient];
        }
        if c.sequence.None? || |c.sequence.value| != 5 {
          findings := findings + [BadSequence];
        }
    }
  }

  method ValidateAudit(audit: Audit, totals: Totals) returns (findings: seq<Finding>)
    ensures findings == AuditFindings(audit, totals)
  {
    findings := [];
    if audit.count.None? {
      findings := findings + [NoCount];
    } else if ToSize(audit.count.value) != totals.count {
      findings := findings + [CountDiffers(audit.count.value, totals.count)];
    }
    if audit.total.None? {
      findings := findings + [NoTotal];
    } else if totals.others > 0 {
      findings := findings + [TotalUnverified(totals.others)];
    } else if audit.total.value != totals.charge {
      findings := findings + [TotalDiffers(audit.total.value, totals.charge)];
    }
  }

  /** Everything that is wrong with a batch, found by recomputing what it says about itself. */
  method ValidateBatch(codec: Codec, batch: Batch) returns (findings: seq<Finding>)
    ensures findings == Findings(codec, batch)
  {
    findings := ValidateControl(batch.control);
    if batch.audit.None? {
      return findings + [NoAudit];
    }
    var totals := Totals(0, 0, 0);
    if batch.events.Some? {
      totals := ComputeTotals(codec, batch.events.value);
    }
    var more := ValidateAudit(batch.audit.value, totals);
    findings := findings + more;
  }

  function If(cond: bool, f: Finding): seq<Finding> { if cond then [f] else [] }

  function ControlFindings(control: Option<Control>): seq<Finding> {
    match control
    case None => [NoControl]
    case Some(c) =>
      If(Absent(c.sender), NoSender) + If(Absent(c.recipient), NoRecipient)
      + If(c.sequence.None? || |c.sequence.value| != 5, BadSequence)
  }

  function EventTotals(codec: Codec, batch: Batch): Totals {
    if batch.events.Some? then TotalsOf(codec, batch.events.value) else Totals(0, 0, 0)
  }

  function AuditFindings(audit: Audit, totals: Totals): seq<Finding> {
    (if audit.count.None? then [NoCount]
     else If(ToSize(audit.count.value) != totals.count, CountDiffers(audit.count.value, totals.count)))
    + (if audit.total.None? then [NoTotal]
       else if totals.others > 0 then [TotalUnverified(totals.others)]
       else If(audit.total.value != totals.charge, TotalDiffers(audit.total.value, totals.charge)))
  }

  function Findings(codec: Codec, batch: Batch): seq<Finding> {
    ControlFindings(batch.control)
    + if batch.audit.None? then [NoAudit] else AuditFindings(batch.audit.value, EventTotals(codec, batch))
  }

  /** Addressed and numbered, carrying only GPRS events, with audit totals that are theirs. */
  predicate Clean(batch: Batch, totals: Totals) {
    && batch.control.Some? && !Absent(batch.control.value.sender) && !Absent(batch.control.value.recipient)
    && batch.control.value.sequence.Some? && |batch.control.value.sequence.value| == 5
    && batch.audit.Some?
    && batch.audit.value.count.Some? && ToSize(batch.audit.value.count.value) == totals.count
    && totals.others == 0 && batch.audit.value.total == Some(totals.charge)
  }

  /** Nothing is found exactly in a clean batch. */
  lemma CleanExactly(codec: Codec, batch: Batch)
    ensures Findings(codec, batch) == [] <==> Clean(batch, EventTotals(codec, batch))
  {
  }

  lemma CountFits(n: nat)
    requires n < 0x8000_0000_0000_0000
    ensures ToSize(ToInt32(n)) == n <==> n < 0x8000_0000
  {
  }

  /**
    What is built validates clean, whatever the records, exactly for named parties and a count that fits 31 bits; and
    its total charge is the sum of the charges of the records.
   */
  lemma BuiltIsClean(codec: Codec, sender: string, recipient: string, sequence: nat, created: string,
                     records: seq<Record>)
    requires RoundTrips(codec) && |records| < 0x8000_0000_0000_0000
    ensures var batch := Build(codec, sender, recipient, sequence, created, records);
            && (Findings(codec, batch) == [] <==> sender != "" && recipient != "" && |records| < 0x8000_0000)
            && batch.audit.value.total == Some(SumCharges(records))
  {
    var batch := Build(codec, sender, recipient, sequence, created, records);
    BuiltTotals(codec, records);
    CountFits(|records|);
    assert EventTotals(codec, batch) == Totals(SumCharges(records), |records|, 0);
    CleanExactly(codec, batch);
  }

  lemma BuiltTotals(codec: Codec, records: seq<Record>)
    requires RoundTrips(codec)
    ensures TotalsOf(codec, Events(Encoded(codec, records), [])) == Totals(SumCharges(records), |records|, 0)
  {
    EncodedCharge(codec, records);
  }
}
