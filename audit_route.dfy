/**
 * The audit service's POST handler around its two language-model calls:
 * the ordered request checks, the privileged-function filter, the integer
 * risk score, and the clamping and defaulting of the four metrics. The
 * model replies, `JSON.parse` and the scanner data are inputs.
 */
module AuditRoute {
  import opened Wrappers
  import opened StringOps

  /** A scanned function: its modifiers and the `msg.sender` conditions guarding it. */
  datatype ScannedFunction = ScannedFunction(name: string, modifiers: seq<string>, senderConditions: seq<string>)

  datatype Contract = Contract(contractName: string, functions: seq<ScannedFunction>)

  /** The contracts found at one address, in key order. */
  datatype ContractEntry = ContractEntry(name: string, contract: Contract)
  datatype AddressEntry = AddressEntry(address: string, contracts: seq<ContractEntry>)

  /** `PermissionScannerData`, its addresses in key order. */
  type ScannerData = seq<AddressEntry>

  /**
   * `req.body.scannerData`: a falsy value (absent, null, false, 0), a string,
   * or an already-parsed object.
   */
  datatype ScannerField = Absent | Text(text: string) | Value(data: ScannerData)

  const ErrRequired: string := "Permission scanner data is required"
  const ErrFormat: string := "Invalid scanner data format"
  const ErrNoAddresses: string := "No contract addresses found in scanner data"
  const ErrNoNames: string := "No contract names found in scanner data"

  /** A function is privileged when something restricts who may call it. */
  predicate IsPrivileged(f: ScannedFunction) {
    |f.senderConditions| > 0 || |f.modifiers| > 0
  }

  /** `Functions.filter(...)` with the privileged test. */
  function Privileged(fs: seq<ScannedFunction>): (r: seq<ScannedFunction>)
    ensures |r| <= |fs|
    ensures forall f :: f in r <==> f in fs && IsPrivileged(f)
  {
    if |fs| == 0 then []
    else if IsPrivileged(fs[0]) then [fs[0]] + Privileged(fs[1..])
    else Privileged(fs[1..])
  }

  /** The filter keeps the order of the scan: it distributes over concatenation. */
  lemma {:induction false} PrivilegedAppend(a: seq<ScannedFunction>, b: seq<ScannedFunction>)
    ensures Privileged(a + b) == Privileged(a) + Privileged(b)
  {
    if |a| == 0 {
      assert a + b == b;
    } else {
      assert (a + b)[0] == a[0];
      assert (a + b)[1..] == a[1..] + b;
      PrivilegedAppend(a[1..], b);
    }
  }

  /** A contract none of whose functions is restricted has no privileged function. */
  lemma {:induction false} PrivilegedEmpty(fs: seq<ScannedFunction>)
    ensures (forall i :: 0 <= i < |fs| ==> !IsPrivileged(fs[i])) <==> Privileged(fs) == []
  {
    if |fs| > 0 {
      PrivilegedEmpty(fs[1..]);
      if Privileged(fs) == [] {
        assert !IsPrivileged(fs[0]);
        forall i | 0 <= i < |fs| ensures !IsPrivileged(fs[i]) {
          if i > 0 { assert fs[i] == fs[1..][i - 1]; }
        }
      }
    }
  }

  /** `Math.min(10, Math.max(1, Math.ceil(n * 1.5)))`, with `ceil(1.5 n)` as `(3n + 1) / 2`. */
  function RiskScore(n: nat): (r: nat)
    ensures 1 <= r <= 10
    ensures n == 0 ==> r == 1
    ensures n >= 7 ==> r == 10
    ensures 1 <= n < 7 ==> 2 * r >= 3 * n > 2 * (r - 1)
  {
    var c := (3 * n + 1) / 2;
    if c > 10 then 10 else if c < 1 then 1 else c
  }

  /** More privileged functions never lower the score. */
  lemma RiskScoreMonotone(m: nat, n: nat)
    requires m <= n
    ensures RiskScore(m) <= RiskScore(n)
  {
    assert (3 * m + 1) / 2 <= (3 * n + 1) / 2;
  }

  /** A metric as read from the parsed model reply. */
  datatype MetricInput = NotNumber | NaN | PosInf | NegInf | Num(x: real)

  /** `ensureValidMetric`. */
  function EnsureValidMetric(v: MetricInput): (r: real)
    ensures 0.0 <= r <= 1.0
    ensures (v.NotNumber? || v.NaN?) ==> r == 0.5
    ensures v.Num? && 0.0 <= v.x <= 1.0 ==> r == v.x
    ensures (v.Num? && v.x < 0.0) || v.NegInf? ==> r == 0.0
    ensures (v.Num? && v.x > 1.0) || v.PosInf? ==> r == 1.0
  {
    match v
    case NotNumber => 0.5
    case NaN => 0.5
    case PosInf => 1.0
    case NegInf => 0.0
    case Num(x) => if x < 0.0 then 0.0 else if x > 1.0 then 1.0 else x
  }

  /** Clamping a clamped metric changes nothing. */
  lemma EnsureValidMetricIdempotent(v: MetricInput)
    ensures EnsureValidMetric(Num(EnsureValidMetric(v))) == EnsureValidMetric(v)
  {
  }

  datatype Metrics = Metrics(autonomy: real, exitwindow: real, chain: real, upgradeability: real)

  const DefaultMetrics: Metrics := Metrics(0.5, 0.5, 0.5, 0.5)

  predicate MetricsInRange(m: Metrics) {
    0.0 <= m.autonomy <= 1.0 && 0.0 <= m.exitwindow <= 1.0 && 0.0 <= m.chain <= 1.0 && 0.0 <= m.upgradeability <= 1.0
  }

  /**
   * `JSON.parse` of the metrics reply: it throws (None), gives null (reading
   * a field of it then throws), or gives a value whose four fields are read.
   */
  datatype ParsedMetrics = ParsedNull | Parsed(autonomy: MetricInput, exitwindow: MetricInput, chain: MetricInput, upgradeability: MetricInput)

  /**
   * The `let metrics` block: defaults, replaced by the clamped parsed
   * fields when the trimmed reply is non-empty and parses to a non-null value.
   */
  method ExtractMetrics(content: Option<string>, parse: string -> Option<ParsedMetrics>) returns (metrics: Metrics)
    ensures MetricsInRange(metrics)
    ensures content.None? || Trim(content.value) == "" ==> metrics == DefaultMetrics
    ensures content.Some? && Trim(content.value) != "" ==>
              match parse(Trim(content.value))
              case Some(Parsed(a, e, c, u)) =>
                metrics == Metrics(EnsureValidMetric(a), EnsureValidMetric(e), EnsureValidMetric(c), EnsureValidMetric(u))
              case _ => metrics == DefaultMetrics
  {
    metrics := DefaultMetrics;
    if content.Some? {
      var trimmed := Trim(content.value);
      if trimmed != "" {
        var extracted := parse(trimmed);
        if extracted.Some? && extracted.value.Parsed? {
          var p := extracted.value;
          metrics := Metrics(EnsureValidMetric(p.autonomy), EnsureValidMetric(p.exitwindow),
                             EnsureValidMetric(p.chain), EnsureValidMetric(p.upgradeability));
        }
      }
    }
  }

  datatype AuditReport = AuditReport(auditMarkdown: Option<string>, contractName: string, contractAddress: string,
                                     riskScore: nat, metrics: Metrics)

  /** The handler's reply: a 400 with its message, or the report. */
  datatype AuditResponse = BadRequest(error: string) | Success(data: AuditReport)

  /**
   * The request checks in order, then the report for the first contract at
   * the first address. `parse` is `JSON.parse` on scanner text (None when it
   * throws); `auditMarkdown` and `metricsContent` are the two model replies.
   */
  method Audit(scannerData: ScannerField, parse: string -> Option<ScannerData>, auditMarkdown: Option<string>,
               metricsContent: Option<string>, parseMetrics: string -> Option<ParsedMetrics>) returns (res: AuditResponse)
    ensures scannerData.Absent? || scannerData == Text("") ==> res == BadRequest(ErrRequired)
    ensures scannerData.Text? && scannerData.text != "" && parse(scannerData.text).None? ==> res == BadRequest(ErrFormat)
    ensures res.Success? ==>
              var data := if scannerData.Text? then parse(scannerData.text).value else scannerData.data;
              |data| > 0 && |data[0].contracts| > 0
              && res.data.contractAddress == data[0].address
              && res.data.contractName == data[0].contracts[0].contract.contractName
              && res.data.riskScore == RiskScore(|Privileged(data[0].contracts[0].contract.functions)|)
              && res.data.auditMarkdown == auditMarkdown
              && MetricsInRange(res.data.metrics)
    ensures res.Success? && (metricsContent.None? || Trim(metricsContent.value) == "") ==>
              res.data.metrics == DefaultMetrics
    ensures res.Success? && metricsContent.Some? && Trim(metricsContent.value) != "" ==>
              match parseMetrics(Trim(metricsContent.value))
              case Some(Parsed(a, e, c, u)) =>
                res.data.metrics == Metrics(EnsureValidMetric(a), EnsureValidMetric(e), EnsureValidMetric(c), EnsureValidMetric(u))
              case _ => res.data.metrics == DefaultMetrics
    ensures (scannerData.Value? || (scannerData.Text? && scannerData.text != "" && parse(scannerData.text).Some?)) ==>
              var data := if scannerData.Text? then parse(scannerData.text).value else scannerData.data;
              (|data| == 0 ==> res == BadRequest(ErrNoAddresses))
              && (|data| > 0 && |data[0].contracts| == 0 ==> res == BadRequest(ErrNoNames))
              && (|data| > 0 && |data[0].contracts| > 0 ==> res.Success?)
  {
    if scannerData.Absent? || scannerData == Text("") {
      return BadRequest(ErrRequired);
    }
    var data: ScannerData;
    if scannerData.Text? {
      var parsed := parse(scannerData.text);
      if parsed.None? {
        return BadRequest(ErrFormat);
      }
      data := parsed.value;
    } else {
      data := scannerData.data;
    }
    if |data| == 0 {
      return BadRequest(ErrNoAddresses);
    }
    var contractAddress := data[0].address;
    if |data[0].contracts| == 0 {
      return BadRequest(ErrNoNames);
    }
    var contractData := data[0].contracts[0].contract;
    var privileged := Privileged(contractData.functions);
    var riskScore := RiskScore(|privileged|);
    var metrics := ExtractMetrics(metricsContent, parseMetrics);
    res := Success(AuditReport(auditMarkdown, contractData.contractName, contractAddress, riskScore, metrics));
  }
}
