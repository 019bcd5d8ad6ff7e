/**
 * Text and table helpers of the shared library: the column order of exported tables
 * (`_collect_columns`), the log file name made from a tool name (`_log_file_path`), and the
 * character limit applied to the element details of the assistant context
 * (`build_context_for_elements`).
 */
module TableText {
  import opened Wrappers

  // ---------------------------------------------------------------------------
  // _collect_columns
  // ---------------------------------------------------------------------------

  /** The keys of one row dictionary, in the order `row.keys()` yields them. */
  type Row = seq<string>

  /** The columns placed first when some row has them, in this order. */
  const PREFERRED: seq<string> := [
    "id", "category", "name", "type", "length_m", "area_m2", "volume_m3",
    "system_name", "system_abbreviation", "system_type", "system_classification",
    "flow", "calculated_size"
  ]

  function Elements(s: seq<string>): set<string>
  {
    set x | x in s
  }

  predicate Distinct(s: seq<string>)
  {
    forall p, q :: 0 <= p < q < |s| ==> s[p] != s[q]
  }

  /** Every key of every row, row by row, in key order. */
  function Flatten(rows: seq<Row>): seq<string>
  {
    if rows == [] then [] else Flatten(rows[..|rows| - 1]) + rows[|rows| - 1]
  }

  /** The names of `preferred` that some row has, in the order of `preferred`. */
  function Present(preferred: seq<string>, rows: seq<Row>): seq<string>
  {
    if preferred == [] then []
    else
      var last := preferred[|preferred| - 1];
      Present(preferred[..|preferred| - 1], rows) + (if last in Flatten(rows) then [last] else [])
  }

  /**
   * The keys of `keys` that are not in `seen`, each once, in the order of their first
   * occurrence: what a loop that appends a key when it is not yet in a `seen` set produces.
   */
  function NewKeys(keys: seq<string>, seen: set<string>): seq<string>
  {
    if keys == [] then []
    else
      var earlier := NewKeys(keys[..|keys| - 1], seen);
      var key := keys[|keys| - 1];
      if key in seen || key in earlier then earlier else earlier + [key]
  }

  /** The column list `_collect_columns` returns: present preferred names, then every other key. */
  function CollectedColumns(rows: seq<Row>): seq<string>
  {
    NewKeys(Present(PREFERRED, rows) + Flatten(rows), {})
  }

  /** The position of the first occurrence of `x` in `s`. */
  function FirstIndex(s: seq<string>, x: string): (k: nat)
    requires x in s
    ensures k < |s| && s[k] == x && forall j :: 0 <= j < k ==> s[j] != x
  {
    if s[0] == x then 0 else 1 + FirstIndex(s[1..], x)
  }

  lemma {:induction false} InFlatten(rows: seq<Row>, x: string)
    ensures x in Flatten(rows) <==> exists r :: 0 <= r < |rows| && x in rows[r]
  {
    if rows != [] {
      InFlatten(rows[..|rows| - 1], x);
      var last := rows[|rows| - 1];
      if x in last {
        assert x in rows[|rows| - 1];
      }
      if exists r :: 0 <= r < |rows| && x in rows[r] {
        var r :| 0 <= r < |rows| && x in rows[r];
        if r < |rows| - 1 {
          assert rows[..|rows| - 1][r] == rows[r];
        }
      }
    }
  }

  lemma FlattenStep(rows: seq<Row>, r: nat)
    requires r < |rows|
    ensures Flatten(rows[..r + 1]) == Flatten(rows[..r]) + rows[r]
  {
    assert rows[..r + 1][..r] == rows[..r];
  }

  lemma {:induction false} InPresent(preferred: seq<string>, rows: seq<Row>, x: string)
    ensures x in Present(preferred, rows) <==> x in preferred && x in Flatten(rows)
  {
    if preferred != [] {
      InPresent(preferred[..|preferred| - 1], rows, x);
      assert preferred == preferred[..|preferred| - 1] + [preferred[|preferred| - 1]];
    }
  }

  lemma {:induction false} InNewKeys(keys: seq<string>, seen: set<string>, x: string)
    ensures x in NewKeys(keys, seen) <==> x in keys && x !in seen
  {
    if keys != [] {
      InNewKeys(keys[..|keys| - 1], seen, x);
      assert keys == keys[..|keys| - 1] + [keys[|keys| - 1]];
    }
  }

  lemma {:induction false} NewKeysDistinct(keys: seq<string>, seen: set<string>)
    ensures Distinct(NewKeys(keys, seen))
  {
    if keys != [] {
      NewKeysDistinct(keys[..|keys| - 1], seen);
    }
  }

  lemma NewKeysAppend(keys: seq<string>, key: string, seen: set<string>)
    ensures NewKeys(keys + [key], seen) ==
      if key in seen || key in NewKeys(keys, seen) then NewKeys(keys, seen) else NewKeys(keys, seen) + [key]
  {
    assert (keys + [key])[..|keys|] == keys;
  }

  /** Splitting the input splits the output: the second part skips what the first kept. */
  lemma {:induction false} NewKeysConcat(a: seq<string>, b: seq<string>, seen: set<string>)
    ensures NewKeys(a + b, seen) == NewKeys(a, seen) + NewKeys(b, seen + Elements(NewKeys(a, seen)))
  {
    if b == [] {
      assert a + b == a;
    } else {
      var init, key := b[..|b| - 1], b[|b| - 1];
      assert a + b == (a + init) + [key];
      assert b == init + [key];
      NewKeysConcat(a, init, seen);
      NewKeysAppend(a + init, key, seen);
      NewKeysAppend(init, key, seen + Elements(NewKeys(a, seen)));
      InNewKeys(a, seen, key);
      InNewKeys(init, seen + Elements(NewKeys(a, seen)), key);
      InNewKeys(a + init, seen, key);
    }
  }

  lemma FirstIndexExtend(s: seq<string>, t: seq<string>, x: string)
    requires x in s
    ensures x in s + t && FirstIndex(s + t, x) == FirstIndex(s, x)
  {
    var k := FirstIndex(s, x);
    assert (s + t)[k] == x;
    var m := FirstIndex(s + t, x);
    assert s[m] == (s + t)[m] || m >= |s|;
  }

  /** The kept keys appear by the position of their first occurrence in the input. */
  lemma {:induction false} NewKeysFirstSeenOrder(keys: seq<string>, seen: set<string>)
    ensures forall x :: x in NewKeys(keys, seen) ==> x in keys
    ensures forall p, q :: 0 <= p < q < |NewKeys(keys, seen)| ==>
      FirstIndex(keys, NewKeys(keys, seen)[p]) < FirstIndex(keys, NewKeys(keys, seen)[q])
  {
    if keys != [] {
      var init, key := keys[..|keys| - 1], keys[|keys| - 1];
      assert keys == init + [key];
      NewKeysFirstSeenOrder(init, seen);
      var earlier := NewKeys(init, seen);
      forall x | x in earlier
        ensures x in keys && FirstIndex(keys, x) == FirstIndex(init, x)
      {
        FirstIndexExtend(init, [key], x);
      }
      if !(key in seen || key in earlier) {
        InNewKeys(init, seen, key);
        assert key !in init;
        var out := earlier + [key];
        assert FirstIndex(keys, key) == |init|;
        forall p, q | 0 <= p < q < |out|
          ensures FirstIndex(keys, out[p]) < FirstIndex(keys, out[q])
        {
          assert out[p] == earlier[p] && out[p] in earlier;
          if q < |earlier| {
            assert out[q] == earlier[q] && out[q] in earlier;
          }
        }
      }
    }
  }

  /**
   * The inner loop of the first pass: the first row that has `col` adds it, unless it was
   * already seen.
   */
  method OfferPreferred(rows: seq<Row>, col: string, columns: seq<string>, seen: set<string>)
    returns (columns': seq<string>, seen': set<string>)
    requires seen == Elements(columns)
    ensures columns' == if col in Flatten(rows) && col !in seen then columns + [col] else columns
    ensures seen' == Elements(columns')
  {
    columns', seen' := columns, seen;
    for r := 0 to |rows|
      invariant columns' == columns && seen' == seen
      invariant col in seen || col !in Flatten(rows[..r])
    {
      FlattenStep(rows, r);
      if col in rows[r] && col !in seen' {
        InFlatten(rows, col);
        seen' := seen' + {col};
        columns' := columns' + [col];
        return;
      }
    }
    assert rows[..|rows|] == rows;
  }

  /** The inner loop of the second pass: each key of `row` not yet seen is appended. */
  method OfferKeys(row: Row, ghost prefix: seq<string>, ghost first: seq<string>, columns: seq<string>, seen: set<string>)
    returns (columns': seq<string>, seen': set<string>)
    requires columns == first + NewKeys(prefix, Elements(first))
    requires seen == Elements(columns)
    ensures columns' == first + NewKeys(prefix + row, Elements(first))
    ensures seen' == Elements(columns')
  {
    columns', seen' := columns, seen;
    assert prefix + row[..0] == prefix;
    for k := 0 to |row|
      invariant columns' == first + NewKeys(prefix + row[..k], Elements(first))
      invariant seen' == Elements(columns')
    {
      var key := row[k];
      assert row[..k + 1] == row[..k] + [key];
      assert prefix + row[..k + 1] == (prefix + row[..k]) + [key];
      NewKeysAppend(prefix + row[..k], key, Elements(first));
      InNewKeys(prefix + row[..k], Elements(first), key);
      if key !in seen' {
        seen' := seen' + {key};
        columns' := columns' + [key];
      }
    }
    assert row[..|row|] == row;
  }

  lemma PresentStep(preferred: seq<string>, p: nat, rows: seq<Row>)
    requires p < |preferred|
    ensures Present(preferred[..p + 1], rows) ==
      Present(preferred[..p], rows) + (if preferred[p] in Flatten(rows) then [preferred[p]] else [])
  {
    assert preferred[..p + 1][..p] == preferred[..p];
  }

  /** The first pass of `_collect_columns`, over the preferred names. */
  method PreferredPass(rows: seq<Row>, preferred: seq<string>) returns (columns: seq<string>, seen: set<string>)
    ensures columns == NewKeys(Present(preferred, rows), {})
    ensures seen == Elements(columns)
  {
    columns := [];
    seen := {};
    for p := 0 to |preferred|
      invariant columns == NewKeys(Present(preferred[..p], rows), {})
      invariant seen == Elements(columns)
    {
      var col := preferred[p];
      columns, seen := OfferPreferred(rows, col, columns, seen);
      PresentStep(preferred, p, rows);
      InNewKeys(Present(preferred[..p], rows), {}, col);
      InPresent(preferred[..p], rows, col);
      NewKeysAppend(Present(preferred[..p], rows), col, {});
      if col in Flatten(rows) {
        assert Present(preferred[..p + 1], rows) == Present(preferred[..p], rows) + [col];
      } else {
        assert Present(preferred[..p + 1], rows) == Present(preferred[..p], rows);
      }
    }
    assert preferred[..|preferred|] == preferred;
  }

  /** The second pass of `_collect_columns`, over every key of every row. */
  method KeyPass(rows: seq<Row>, first: seq<string>, seen0: set<string>) returns (columns: seq<string>)
    requires seen0 == Elements(first)
    ensures columns == first + NewKeys(Flatten(rows), Elements(first))
  {
    columns := first;
    var seen := seen0;
    for r := 0 to |rows|
      invariant columns == first + NewKeys(Flatten(rows[..r]), Elements(first))
      invariant seen == Elements(columns)
    {
      columns, seen := OfferKeys(rows[r], Flatten(rows[..r]), first, columns, seen);
      FlattenStep(rows, r);
    }
    assert rows[..|rows|] == rows;
  }

  /**
   * `_collect_columns`: ask every row for each preferred name in turn and keep it the first
   * time a row has it, then walk every key of every row and keep the ones not yet seen.
   */
  method CollectColumns(rows: seq<Row>) returns (columns: seq<string>)
    ensures columns == CollectedColumns(rows)
    ensures Distinct(columns)
    ensures forall x :: x in columns <==> x in Flatten(rows)
  {
    var first, seen := PreferredPass(rows, PREFERRED);
    columns := KeyPass(rows, first, seen);
    NewKeysConcat(Present(PREFERRED, rows), Flatten(rows), {});
    assert {} + Elements(first) == Elements(first);
    CollectedColumnsCoverKeys(rows);
  }

  /** No column is listed twice, and the columns are exactly the keys some row has. */
  lemma CollectedColumnsCoverKeys(rows: seq<Row>)
    ensures Distinct(CollectedColumns(rows))
    ensures forall x :: x in CollectedColumns(rows) <==> x in Flatten(rows)
  {
    NewKeysDistinct(Present(PREFERRED, rows) + Flatten(rows), {});
    forall x
      ensures x in CollectedColumns(rows) <==> x in Flatten(rows)
    {
      InNewKeys(Present(PREFERRED, rows) + Flatten(rows), {}, x);
      InPresent(PREFERRED, rows, x);
    }
  }

  lemma PreferredDistinct()
    ensures Distinct(PREFERRED)
  {
  }

  lemma {:induction false} PresentIsSubsequence(preferred: seq<string>, rows: seq<Row>)
    requires Distinct(preferred)
    ensures Distinct(Present(preferred, rows))
  {
    if preferred != [] {
      var init := preferred[..|preferred| - 1];
      PresentIsSubsequence(init, rows);
      InPresent(init, rows, preferred[|preferred| - 1]);
    }
  }

  lemma {:induction false} NewKeysOfDistinct(s: seq<string>)
    requires Distinct(s)
    ensures NewKeys(s, {}) == s
  {
    if s != [] {
      var init := s[..|s| - 1];
      NewKeysOfDistinct(init);
      assert s == init + [s[|s| - 1]];
    }
  }

  /**
   * The preferred names some row has come first, in the order of the preferred list, and no
   * column after them is a preferred name.
   */
  lemma PreferredColumnsFirst(rows: seq<Row>)
    ensures |Present(PREFERRED, rows)| <= |CollectedColumns(rows)|
    ensures CollectedColumns(rows)[..|Present(PREFERRED, rows)|] == Present(PREFERRED, rows)
    ensures forall i :: |Present(PREFERRED, rows)| <= i < |CollectedColumns(rows)| ==>
      CollectedColumns(rows)[i] !in PREFERRED
  {
    var pp := Present(PREFERRED, rows);
    PreferredDistinct();
    PresentIsSubsequence(PREFERRED, rows);
    NewKeysOfDistinct(pp);
    NewKeysConcat(pp, Flatten(rows), {});
    assert {} + Elements(pp) == Elements(pp);
    var rest := NewKeys(Flatten(rows), Elements(pp));
    assert CollectedColumns(rows) == pp + rest;
    forall i | |pp| <= i < |CollectedColumns(rows)|
      ensures CollectedColumns(rows)[i] !in PREFERRED
    {
      var x := CollectedColumns(rows)[i];
      assert x == rest[i - |pp|];
      InNewKeys(Flatten(rows), Elements(pp), x);
      InPresent(PREFERRED, rows, x);
    }
  }

  /** The remaining columns follow the order in which the rows first show them. */
  lemma OtherColumnsInFirstSeenOrder(rows: seq<Row>)
    ensures |Present(PREFERRED, rows)| <= |CollectedColumns(rows)|
    ensures var rest := CollectedColumns(rows)[|Present(PREFERRED, rows)|..];
      forall p, q :: 0 <= p < q < |rest| ==>
        rest[p] in Flatten(rows) && rest[q] in Flatten(rows) &&
        FirstIndex(Flatten(rows), rest[p]) < FirstIndex(Flatten(rows), rest[q])
  {
    var pp := Present(PREFERRED, rows);
    PreferredDistinct();
    PresentIsSubsequence(PREFERRED, rows);
    NewKeysOfDistinct(pp);
    NewKeysConcat(pp, Flatten(rows), {});
    assert {} + Elements(pp) == Elements(pp);
    assert CollectedColumns(rows)[|pp|..] == NewKeys(Flatten(rows), Elements(pp));
    NewKeysFirstSeenOrder(Flatten(rows), Elements(pp));
  }

  // ---------------------------------------------------------------------------
  // _log_file_path
  // ---------------------------------------------------------------------------

  /**
   * CPython's `str.isalnum` on one character, for ASCII and Latin-1: the digits, the letters A-Z
   * and a-z, the superscript digits and vulgar fractions (numeric characters), and the Latin-1
   * letters (feminine and masculine ordinals, micro sign, and the accented letters except the
   * multiplication and division signs). Control characters, the space and ASCII punctuation
   * are rejected; characters beyond Latin-1 are outside this model and rejected too.
   */
  predicate IsAlnum(ch: char)
    ensures ch < '0' || ch in ":;<=>?@[\\]^_`{|}~\U{7F}" ==> !IsAlnum(ch)
    ensures IsAlnum(ch) ==> ch <= '\U{FF}'
    ensures ('0' <= ch <= '9') || ('A' <= ch <= 'Z') || ('a' <= ch <= 'z') ==> IsAlnum(ch)
    ensures ('\U{C0}' <= ch <= '\U{D6}') || ('\U{D8}' <= ch <= '\U{F6}') || ('\U{F8}' <= ch <= '\U{FF}') ==> IsAlnum(ch)
    ensures ch == '\U{D7}' || ch == '\U{F7}' ==> !IsAlnum(ch)
  {
    ('0' <= ch <= '9') || ('A' <= ch <= 'Z') || ('a' <= ch <= 'z')
    || ch == '\U{AA}' || ch == '\U{B2}' || ch == '\U{B3}' || ch == '\U{B5}'
    || ch == '\U{B9}' || ch == '\U{BA}' || ('\U{BC}' <= ch <= '\U{BE}')
    || ('\U{C0}' <= ch <= '\U{D6}') || ('\U{D8}' <= ch <= '\U{F6}') || ('\U{F8}' <= ch <= '\U{FF}')
  }

  /** A character kept as it is in a log file name. */
  predicate IsNameChar(ch: char)
  {
    IsAlnum(ch) || ch == '-' || ch == '_'
  }

  function Sanitize(ch: char): (r: char)
    ensures IsNameChar(r)
    ensures IsNameChar(ch) ==> r == ch
    ensures !IsNameChar(ch) ==> r == '_'
  {
    if IsNameChar(ch) then ch else '_'
  }

  /** The default tool name: used when none is given or it is empty. */
  const GENERAL: string := "general"

  /** What `tool_name or 'general'` yields. */
  function ToolStem(toolName: Option<string>): (stem: string)
    ensures |stem| > 0
    ensures toolName.Some? && toolName.value != "" ==> stem == toolName.value
    ensures toolName.None? || toolName.value == "" ==> stem == GENERAL
  {
    if toolName.None? || toolName.value == "" then GENERAL else toolName.value
  }

  /**
   * The file name of `_log_file_path`: every character of the tool name that is not a letter,
   * digit, '-' or '_' becomes '_', and ".log" is appended.
   */
  method LogFileName(toolName: Option<string>) returns (fileName: string)
    ensures |fileName| == |ToolStem(toolName)| + 4
    ensures fileName[|fileName| - 4..] == ".log"
    ensures forall i :: 0 <= i < |fileName| - 4 ==> fileName[i] == Sanitize(ToolStem(toolName)[i])
  {
    var safe := ToolStem(toolName);
    var filtered: string := [];
    for i := 0 to |safe|
      invariant |filtered| == i
      invariant forall j :: 0 <= j < i ==> filtered[j] == Sanitize(safe[j])
    {
      var ch := safe[i];
      if IsAlnum(ch) || ch == '-' || ch == '_' {
        filtered := filtered + [ch];
      } else {
        filtered := filtered + ['_'];
      }
    }
    var fileStem := if |filtered| > 0 then filtered else GENERAL;
    fileName := fileStem + ".log";
  }

  /** A tool name already made of name characters is kept as it is. */
  lemma SanitizeKeepsCleanNames(toolName: string)
    requires toolName != ""
    requires forall i :: 0 <= i < |toolName| ==> IsNameChar(toolName[i])
    ensures forall i :: 0 <= i < |toolName| ==> Sanitize(ToolStem(Some(toolName))[i]) == toolName[i]
  {
  }

  // ---------------------------------------------------------------------------
  // The character limit of build_context_for_elements
  // ---------------------------------------------------------------------------

  /** Python's `s[:k]`: a negative `k` counts from the end. */
  function PrefixSlice(s: string, k: int): (r: string)
    ensures r <= s
    ensures k >= 0 ==> |r| == if k <= |s| then k else |s|
    ensures k < 0 ==> |r| == if -k <= |s| then |s| + k else 0
  {
    if k >= 0 then (if k <= |s| then s[..k] else s)
    else (if -k <= |s| then s[..|s| + k] else [])
  }

  /** Python's `s.rfind(ch)`: the last position of `ch`, or -1. */
  function RFind(s: string, ch: char): (r: int)
    ensures -1 <= r < |s|
    ensures r == -1 <==> ch !in s
    ensures r >= 0 ==> s[r] == ch && forall j :: r < j < |s| ==> s[j] != ch
  {
    if s == [] then -1
    else if s[|s| - 1] == ch then |s| - 1
    else RFind(s[..|s| - 1], ch)
  }

  /** The detail text after the limit, and whether the truncation note is added. */
  datatype Detail = Detail(text: string, truncated: bool)

  /**
   * A text longer than the limit is cut to `charLimit` characters and then back to its last
   * line break, unless that break is the first character.
   */
  function LimitDetail(detailText: string, charLimit: int): (d: Detail)
    ensures d.text <= detailText
    ensures d.truncated <==> |detailText| > charLimit
    ensures !d.truncated ==> d.text == detailText
    ensures d.truncated && charLimit >= 0 ==> |d.text| <= charLimit
    ensures d.truncated && charLimit < 0 ==> |d.text| <= |detailText| + charLimit || d.text == []
  {
    if |detailText| > charLimit then
      var trimmed := PrefixSlice(detailText, charLimit);
      var lastBreak := RFind(trimmed, '\n');
      Detail(if lastBreak > 0 then trimmed[..lastBreak] else trimmed, true)
    else
      Detail(detailText, false)
  }

  /**
   * When the cut keeps a line break after the first character, the text ends just before the
   * last line break of the cut, so no partial line survives; otherwise the cut stays as it is.
   */
  lemma LimitEndsAtLineBreak(detailText: string, charLimit: int)
    requires |detailText| > charLimit
    ensures var cut := PrefixSlice(detailText, charLimit);
      var d := LimitDetail(detailText, charLimit);
      if exists j :: 0 < j < |cut| && cut[j] == '\n' then
        |d.text| < |cut| && cut[|d.text|] == '\n' && '\n' !in cut[|d.text| + 1..]
      else
        d.text == cut
  {
    var cut := PrefixSlice(detailText, charLimit);
    var k := RFind(cut, '\n');
    if exists j :: 0 < j < |cut| && cut[j] == '\n' {
      var j :| 0 < j < |cut| && cut[j] == '\n';
      assert k >= j;
      var tail := cut[k + 1..];
      forall i | 0 <= i < |tail|
        ensures tail[i] != '\n'
      {
        assert tail[i] == cut[k + 1 + i];
      }
    }
  }
}
