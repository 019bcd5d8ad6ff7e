/**
 * The row numbering of `export_clashes_to_csv`: one counter runs from 1 through the
 * critical bucket, then the warning bucket, then the check bucket, and each row gets the
 * identifier `CLASH_{:05d}` of the counter and the status of its bucket.
 */
module ClashExport {
  import opened ClashCheck

  /**
   * The columns of one CSV row that the model keeps: identifier, status, the two element ids
   * and the squared centre distance (the source prints the distance with one decimal).
   */
  datatype CsvRow = CsvRow(clashId: string, status: string, mepId: int, structId: int, distanceSqMm: real)

  predicate IsDigit(ch: char)
  {
    '0' <= ch <= '9'
  }

  predicate AllDigits(s: string)
  {
    forall k :: 0 <= k < |s| ==> IsDigit(s[k])
  }

  function DigitChar(d: nat): (ch: char)
    requires d < 10
    ensures IsDigit(ch)
  {
    ('0' as int + d) as char
  }

  /** The decimal digits of `n`, most significant first, without leading zeros. */
  function Decimal(n: nat): (s: string)
    ensures |s| >= 1 && AllDigits(s)
  {
    if n < 10 then [DigitChar(n)] else Decimal(n / 10) + [DigitChar(n % 10)]
  }

  function Zeros(k: nat): (s: string)
    ensures |s| == k && forall i :: 0 <= i < k ==> s[i] == '0'
  {
    if k == 0 then [] else Zeros(k - 1) + ['0']
  }

  /** Left-pad with zeros to at least `width` characters, as the `0` flag of `{:05d}` does. */
  function ZeroPad(s: string, width: nat): (r: string)
    ensures |r| == if |s| >= width then |s| else width
    ensures r[|r| - |s|..] == s
  {
    if |s| >= width then s else Zeros(width - |s|) + s
  }

  /** `'CLASH_{:05d}'.format(n)` */
  function ClashLabel(n: nat): (id: string)
    ensures |id| >= 11 && id[..6] == "CLASH_"
  {
    "CLASH_" + ZeroPad(Decimal(n), 5)
  }

  /** Every identifier is `CLASH_` followed by at least five digits. */
  lemma ClashLabelShape(n: nat)
    ensures |ClashLabel(n)| >= 11 && ClashLabel(n)[..6] == "CLASH_" && AllDigits(ClashLabel(n)[6..])
  {
    assert ClashLabel(n)[6..] == ZeroPad(Decimal(n), 5);
  }

  /** The number that a digit string denotes (leading zeros allowed). */
  function DigitsValue(s: string): nat
    requires AllDigits(s)
  {
    if s == [] then 0 else DigitsValue(s[..|s| - 1]) * 10 + (s[|s| - 1] as int - '0' as int)
  }

  /** Reads the counter back out of a row identifier. */
  function LabelNumber(id: string): nat
    requires |id| >= 6 && AllDigits(id[6..])
  {
    DigitsValue(id[6..])
  }

  lemma {:induction false} DecimalValue(n: nat)
    ensures DigitsValue(Decimal(n)) == n
  {
    if n >= 10 {
      var s := Decimal(n);
      assert s[..|s| - 1] == Decimal(n / 10);
      DecimalValue(n / 10);
    }
  }

  lemma {:induction false} LeadingZerosValue(k: nat, s: string)
    requires AllDigits(s)
    ensures AllDigits(Zeros(k) + s) && DigitsValue(Zeros(k) + s) == DigitsValue(s)
  {
    var z := Zeros(k) + s;
    if s == [] {
      assert z == Zeros(k);
      if k > 0 {
        assert z[..|z| - 1] == Zeros(k - 1);
        LeadingZerosValue(k - 1, []);
        assert Zeros(k - 1) + [] == Zeros(k - 1);
      }
    } else {
      assert z[..|z| - 1] == Zeros(k) + s[..|s| - 1];
      LeadingZerosValue(k, s[..|s| - 1]);
    }
  }

  /** The identifier of row `n` gives back `n`. */
  lemma LabelRoundTrip(n: nat)
    ensures LabelNumber(ClashLabel(n)) == n
  {
    var d := Decimal(n);
    ClashLabelShape(n);
    assert ClashLabel(n)[6..] == ZeroPad(d, 5);
    if |d| < 5 {
      LeadingZerosValue(5 - |d|, d);
    }
    DecimalValue(n);
  }

  /** Different counters give different identifiers. */
  lemma LabelInjective(a: nat, b: nat)
    requires ClashLabel(a) == ClashLabel(b)
    ensures a == b
  {
    LabelRoundTrip(a);
    LabelRoundTrip(b);
  }

  /** The first exported row is `CLASH_00001`. */
  lemma FirstLabel()
    ensures ClashLabel(1) == "CLASH_00001"
  {
    assert Decimal(1) == "1";
    assert Zeros(4) == "0000";
  }

  /** The status column written by each of the three loops. */
  function StatusTag(sev: Severity): (tag: string)
    ensures tag in {"CRITICAL", "WARNING", "CHECK"}
  {
    match sev
    case Critical => "CRITICAL"
    case Warning => "WARNING"
    case Check => "CHECK"
  }

  /** Tags tell the buckets apart. */
  lemma StatusTagInjective(a: Severity, b: Severity)
    requires StatusTag(a) == StatusTag(b)
    ensures a == b
  {
  }

  /**
   * The exported columns of one `writerow` call: the counter reads back from the identifier,
   * the status names the bucket, and the ids and distance are those of the entry.
   */
  function RowFor(n: nat, sev: Severity, c: Clash): (r: CsvRow)
    ensures |r.clashId| >= 6 && AllDigits(r.clashId[6..]) && LabelNumber(r.clashId) == n
    ensures r.status == StatusTag(sev) && r.status in {"CRITICAL", "WARNING", "CHECK"}
    ensures r.mepId == c.mep.id && r.structId == c.structural.id && r.distanceSqMm == c.distanceSqMm
  {
    ClashLabelShape(n);
    LabelRoundTrip(n);
    CsvRow(ClashLabel(n), StatusTag(sev), c.mep.id, c.structural.id, c.distanceSqMm)
  }

  /** Row `k` (from 0) carries the identifier of counter `k + 1`. */
  predicate NumberedFromOne(rows: seq<CsvRow>)
  {
    forall k :: 0 <= k < |rows| ==> rows[k].clashId == ClashLabel(k + 1)
  }

  /** Rows numbered consecutively from one have pairwise different identifiers. */
  lemma NumberedRowsHaveDistinctIds(rows: seq<CsvRow>)
    requires NumberedFromOne(rows)
    ensures forall p, q :: 0 <= p < q < |rows| ==> rows[p].clashId != rows[q].clashId
  {
    forall p, q | 0 <= p < q < |rows|
      ensures rows[p].clashId != rows[q].clashId
    {
      if rows[p].clashId == rows[q].clashId {
        LabelInjective(p + 1, q + 1);
      }
    }
  }

  /**
   * One of the three loops of `export_clashes_to_csv`: a row per entry of the bucket, tagged
   * with the bucket's status, numbered by the shared `clash_id` counter, which it advances.
   */
  method WriteBucket(rows: seq<CsvRow>, clashId: nat, bucket: seq<Clash>, sev: Severity)
    returns (out: seq<CsvRow>, nextId: nat)
    requires clashId == |rows| + 1 && NumberedFromOne(rows)
    ensures |out| == |rows| + |bucket| && out[..|rows|] == rows
    ensures forall i :: 0 <= i < |bucket| ==> out[|rows| + i] == RowFor(|rows| + i + 1, sev, bucket[i])
    ensures nextId == |out| + 1 && NumberedFromOne(out)
  {
    out, nextId := rows, clashId;
    for k := 0 to |bucket|
      invariant nextId == |out| + 1 && |out| == |rows| + k
      invariant out[..|rows|] == rows && NumberedFromOne(out)
      invariant forall i :: 0 <= i < k ==> out[|rows| + i] == RowFor(|rows| + i + 1, sev, bucket[i])
    {
      var row := RowFor(nextId, sev, bucket[k]);
      AppendRow(rows, out, k, bucket, sev);
      out := out + [row];
      nextId := nextId + 1;
    }
  }

  /** One step of `WriteBucket`'s loop keeps its invariant. */
  lemma AppendRow(rows: seq<CsvRow>, out: seq<CsvRow>, k: nat, bucket: seq<Clash>, sev: Severity)
    requires k < |bucket| && |out| == |rows| + k
    requires out[..|rows|] == rows && NumberedFromOne(out)
    requires forall i :: 0 <= i < k ==> out[|rows| + i] == RowFor(|rows| + i + 1, sev, bucket[i])
    ensures var next := out + [RowFor(|out| + 1, sev, bucket[k])];
      next[..|rows|] == rows && NumberedFromOne(next) &&
      forall i :: 0 <= i < k + 1 ==> next[|rows| + i] == RowFor(|rows| + i + 1, sev, bucket[i])
  {
    var row := RowFor(|out| + 1, sev, bucket[k]);
    var next := out + [row];
    assert next[..|out|] == out;
    assert next[..|rows|] == out[..|rows|];
    forall i | 0 <= i < |next|
      ensures next[i].clashId == ClashLabel(i + 1)
    {
      if i < |out| {
        assert next[i] == out[i];
      }
    }
    forall i | 0 <= i < k + 1
      ensures next[|rows| + i] == RowFor(|rows| + i + 1, sev, bucket[i])
    {
      if i < k {
        assert next[|rows| + i] == out[|rows| + i];
      }
    }
  }

  /**
   * `export_clashes_to_csv`: critical rows numbered from 1, then warning rows, then check
   * rows, each tagged with its bucket, so that the identifiers count the rows from 1.
   */
  method ExportClashRows(critical: seq<Clash>, warning: seq<Clash>, check: seq<Clash>)
    returns (rows: seq<CsvRow>)
    ensures |rows| == |critical| + |warning| + |check|
    ensures forall k :: 0 <= k < |critical| ==> rows[k] == RowFor(k + 1, Critical, critical[k])
    ensures forall k :: 0 <= k < |warning| ==>
      rows[|critical| + k] == RowFor(|critical| + k + 1, Warning, warning[k])
    ensures forall k :: 0 <= k < |check| ==>
      rows[|critical| + |warning| + k] == RowFor(|critical| + |warning| + k + 1, Check, check[k])
    ensures NumberedFromOne(rows)
  {
    var clashId := 1;
    var afterCritical, afterWarning;
    afterCritical, clashId := WriteBucket([], clashId, critical, Critical);
    afterWarning, clashId := WriteBucket(afterCritical, clashId, warning, Warning);
    rows, clashId := WriteBucket(afterWarning, clashId, check, Check);
    forall k | 0 <= k < |critical|
      ensures rows[k] == RowFor(k + 1, Critical, critical[k])
    {
      assert rows[k] == afterWarning[k] == afterCritical[k];
    }
    forall k | 0 <= k < |warning|
      ensures rows[|critical| + k] == RowFor(|critical| + k + 1, Warning, warning[k])
    {
      assert rows[|critical| + k] == afterWarning[|critical| + k];
    }
  }
}
