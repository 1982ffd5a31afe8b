/** Reading the hit table: splitting the header and the rows on commas, trimming the
    column names, looking columns up by name, and turning each row into a Hit
    (muon_tracker_fixed.cpp, lines 59-140). File reading and logging are not modelled:
    the table arrives as its sequence of lines. */
module Ingest {
  import opened Wrappers
  import opened Hits

  // ---------------------------------------------------------------------------
  // Splitting on ','
  // ---------------------------------------------------------------------------

  /** The comma-separated fields of s, one more than the number of commas. */
  function SplitAll(s: string): (r: seq<string>)
    ensures |r| >= 1
    decreases |s|
  {
    if s == [] then [""]
    else
      var f := SplitAll(s[..|s| - 1]);
      if s[|s| - 1] == ',' then f + [""] else f[..|f| - 1] + [f[|f| - 1] + [s[|s| - 1]]]
  }

  /** The fields that repeated `getline(stream, field, ',')` produces: every field of
      SplitAll except a final empty one (so "" has no field and "a," has one). */
  function GetlineFields(s: string): seq<string> {
    var f := SplitAll(s);
    if f[|f| - 1] == "" then f[..|f| - 1] else f
  }

  /** The inverse of SplitAll: the fields joined with ','. */
  function Join(fs: seq<string>): string
    requires |fs| >= 1
  {
    if |fs| == 1 then fs[0] else Join(fs[..|fs| - 1]) + "," + fs[|fs| - 1]
  }

  predicate NoComma(f: string) {
    forall k :: 0 <= k < |f| ==> f[k] != ','
  }

  /** Joining one more field adds a comma and the field. */
  lemma JoinSnoc(fs: seq<string>, x: string)
    requires |fs| >= 1
    ensures Join(fs + [x]) == Join(fs) + "," + x
  {
    assert (fs + [x])[..|fs|] == fs;
  }

  /** Extending the last field extends the joined line. */
  lemma JoinExtendLast(pre: seq<string>, x: string, c: char)
    ensures Join(pre + [x + [c]]) == Join(pre + [x]) + [c]
  {
    if pre == [] {
      assert pre + [x + [c]] == [x + [c]];
      assert pre + [x] == [x];
    } else {
      JoinSnoc(pre, x + [c]);
      JoinSnoc(pre, x);
      assert Join(pre) + "," + (x + [c]) == Join(pre) + "," + x + [c];
    }
  }

  /** Splitting loses nothing: joining the fields restores the line. */
  lemma {:induction false} JoinSplitAll(s: string)
    ensures Join(SplitAll(s)) == s
    decreases |s|
  {
    if s != [] {
      var init, last := s[..|s| - 1], s[|s| - 1];
      assert s == init + [last];
      JoinSplitAll(init);
      var f := SplitAll(init);
      if last == ',' {
        JoinSnoc(f, "");
      } else {
        var n := |f| - 1;
        JoinExtendLast(f[..n], f[n], last);
        assert f[..n] + [f[n]] == f;
      }
    }
  }

  /** No field holds a comma. */
  lemma {:induction false} SplitAllNoComma(s: string)
    ensures forall i :: 0 <= i < |SplitAll(s)| ==> NoComma(SplitAll(s)[i])
    decreases |s|
  {
    if s != [] {
      var init, last := s[..|s| - 1], s[|s| - 1];
      SplitAllNoComma(init);
      var f := SplitAll(init);
      if last != ',' {
        assert NoComma(f[|f| - 1] + [last]);
      }
    }
  }

  /** The last field of a non-empty line that does not end in ',' is not empty. */
  lemma {:induction false} LastFieldNonEmpty(s: string)
    requires s != [] && s[|s| - 1] != ','
    ensures SplitAll(s)[|SplitAll(s)| - 1] != ""
  {
  }

  /** For a line that does not end in ',', the getline fields join back to the line. */
  lemma GetlineFieldsRoundTrip(s: string)
    requires s != [] && s[|s| - 1] != ','
    ensures GetlineFields(s) == SplitAll(s)
    ensures Join(GetlineFields(s)) == s
    ensures forall i :: 0 <= i < |GetlineFields(s)| ==> NoComma(GetlineFields(s)[i])
  {
    LastFieldNonEmpty(s);
    JoinSplitAll(s);
    SplitAllNoComma(s);
  }

  /** The field-splitting loop of lines 69/121: collect characters up to each ',' and keep
      the last field only if the stream had characters left for it. */
  method SplitFields(s: string) returns (fields: seq<string>)
    ensures fields == GetlineFields(s)
  {
    fields := [];
    var cur := "";
    var i := 0;
    while i < |s|
      invariant 0 <= i <= |s|
      invariant fields + [cur] == SplitAll(s[..i])
    {
      assert s[..i + 1][..i] == s[..i];
      if s[i] == ',' {
        fields := fields + [cur];
        cur := "";
      } else {
        cur := cur + [s[i]];
      }
      i := i + 1;
    }
    assert s[..i] == s;
    if cur != "" {
      fields := fields + [cur];
    } else {
      assert (fields + [cur])[..|fields|] == fields;
    }
  }

  // ---------------------------------------------------------------------------
  // Trimming header names (lines 70-71)
  // ---------------------------------------------------------------------------

  /** `isspace` in the C locale: space, and '\t' '\n' '\v' '\f' '\r'. */
  predicate IsSpace(c: char) {
    c == ' ' || ('\t' <= c <= '\r')
  }

  predicate AllSpace(s: string) {
    forall k :: 0 <= k < |s| ==> IsSpace(s[k])
  }

  /** t is s without its leading and trailing white space. */
  ghost predicate IsTrimOf(t: string, s: string) {
    && (t == [] || (!IsSpace(t[0]) && !IsSpace(t[|t| - 1])))
    && exists p, q :: AllSpace(p) && AllSpace(q) && s == p + t + q
  }

  /** Pop trailing white space, then erase leading white space. */
  method Trim(s: string) returns (t: string)
    ensures IsTrimOf(t, s)
  {
    t := s;
    ghost var q := "";
    while t != [] && IsSpace(t[|t| - 1])
      invariant s == t + q && AllSpace(q)
    {
      q := [t[|t| - 1]] + q;
      t := t[..|t| - 1];
    }
    ghost var p := "";
    while t != [] && IsSpace(t[0])
      invariant s == p + t + q && AllSpace(p) && AllSpace(q)
      invariant t == [] || !IsSpace(t[|t| - 1])
    {
      p := p + [t[0]];
      t := t[1..];
    }
    assert AllSpace(p) && AllSpace(q) && s == p + t + q;
  }

  /** In s == p + t + q with p white space and t starting with a non-space character,
      |p| is the position of the first non-space character of s. */
  lemma LeadingSpaces(s: string, p: string, t: string, q: string)
    requires s == p + t + q && AllSpace(p) && t != [] && !IsSpace(t[0])
    ensures forall k :: 0 <= k < |p| ==> IsSpace(s[k])
    ensures !IsSpace(s[|p|])
  {
    assert s[|p|] == t[0];
  }

  /** Symmetrically, |q| counts the white space after the last non-space character. */
  lemma TrailingSpaces(s: string, p: string, t: string, q: string)
    requires s == p + t + q && AllSpace(q) && t != [] && !IsSpace(t[|t| - 1])
    ensures forall k :: |s| - |q| <= k < |s| ==> IsSpace(s[k])
    ensures !IsSpace(s[|s| - |q| - 1])
  {
    assert s[|s| - |q| - 1] == t[|t| - 1];
    forall k | |s| - |q| <= k < |s| ensures IsSpace(s[k]) {
      assert s[k] == q[k - (|s| - |q|)];
    }
  }

  /** Trimming is a function: a string has exactly one trimmed form. */
  lemma TrimUnique(s: string, t1: string, t2: string)
    requires IsTrimOf(t1, s) && IsTrimOf(t2, s)
    ensures t1 == t2
  {
    var p1, q1 :| AllSpace(p1) && AllSpace(q1) && s == p1 + t1 + q1;
    var p2, q2 :| AllSpace(p2) && AllSpace(q2) && s == p2 + t2 + q2;
    if t1 != [] && t2 != [] {
      LeadingSpaces(s, p1, t1, q1);
      LeadingSpaces(s, p2, t2, q2);
      TrailingSpaces(s, p1, t1, q1);
      TrailingSpaces(s, p2, t2, q2);
      assert |p1| == |p2| && |q1| == |q2|;
      assert t1 == s[|p1|..|s| - |q1|];
      assert t2 == s[|p2|..|s| - |q2|];
    } else if t1 != [] {
      LeadingSpaces(s, p1, t1, q1);
    } else if t2 != [] {
      LeadingSpaces(s, p2, t2, q2);
    }
  }

  /** The header loop of lines 66-74: split on ',' and trim every name. */
  method ParseHeader(header: string) returns (cols: seq<string>)
    ensures |cols| == |GetlineFields(header)|
    ensures forall i :: 0 <= i < |cols| ==> IsTrimOf(cols[i], GetlineFields(header)[i])
  {
    var fields := SplitFields(header);
    cols := [];
    var i := 0;
    while i < |fields|
      invariant 0 <= i <= |fields| && |cols| == i
      invariant forall j :: 0 <= j < i ==> IsTrimOf(cols[j], fields[j])
    {
      var name := Trim(fields[i]);
      cols := cols + [name];
      i := i + 1;
    }
  }

  // ---------------------------------------------------------------------------
  // Case-insensitive column lookup: find_col (lines 75-91)
  // ---------------------------------------------------------------------------

  /** `tolower` in the C locale: only 'A'..'Z' change. */
  function LowerChar(c: char): char {
    if 'A' <= c <= 'Z' then (c as int + 32) as char else c
  }

  function Lower(s: string): (r: string)
    ensures |r| == |s|
  {
    seq(|s|, i requires 0 <= i < |s| => LowerChar(s[i]))
  }

  predicate OccursAt(n: string, h: string, k: int) {
    0 <= k && k + |n| <= |h| && h[k..k + |n|] == n
  }

  /** `h.find(n) != npos`: n occurs in h (the empty string occurs everywhere). */
  predicate Contains(h: string, n: string) {
    exists k :: 0 <= k <= |h| - |n| && OccursAt(n, h, k)
  }

  /** Column col answers the query name: by equal lower-cased names, or (exact false)
      by the query occurring in the lower-cased name. */
  predicate MatchesColumn(col: string, name: string, exact: bool) {
    if exact then Lower(col) == Lower(name) else Contains(Lower(col), Lower(name))
  }

  /** The first index at or after i whose column matches, or -1. */
  function FirstMatch(cols: seq<string>, name: string, exact: bool, i: nat): (r: int)
    requires i <= |cols|
    ensures r == -1 || (i <= r < |cols| && MatchesColumn(cols[r], name, exact))
    ensures forall j :: i <= j < |cols| && (r == -1 || j < r) ==> !MatchesColumn(cols[j], name, exact)
    decreases |cols| - i
  {
    if i == |cols| then -1
    else if MatchesColumn(cols[i], name, exact) then i
    else FirstMatch(cols, name, exact, i + 1)
  }

  /** find_col: the first column whose lower-cased name equals the lower-cased query;
      only when there is none, the first column containing it; otherwise -1. */
  function ColumnOf(cols: seq<string>, name: string): (r: int)
    ensures -1 <= r < |cols|
    ensures (exists i :: 0 <= i < |cols| && MatchesColumn(cols[i], name, true)) ==>
              0 <= r && MatchesColumn(cols[r], name, true)
              && forall j :: 0 <= j < r ==> !MatchesColumn(cols[j], name, true)
    ensures (forall i :: 0 <= i < |cols| ==> !MatchesColumn(cols[i], name, true)) ==>
              if exists i :: 0 <= i < |cols| && MatchesColumn(cols[i], name, false) then
                0 <= r && MatchesColumn(cols[r], name, false)
                && forall j :: 0 <= j < r ==> !MatchesColumn(cols[j], name, false)
              else r == -1
  {
    var e := FirstMatch(cols, name, true, 0);
    if e >= 0 then e else FirstMatch(cols, name, false, 0)
  }

  /** The two scans of find_col. */
  method FindCol(cols: seq<string>, name: string) returns (idx: int)
    ensures idx == ColumnOf(cols, name)
  {
    var n := Lower(name);
    var i := 0;
    while i < |cols|
      invariant 0 <= i <= |cols|
      invariant FirstMatch(cols, name, true, 0) == FirstMatch(cols, name, true, i)
    {
      var low := Lower(cols[i]);
      if low == n {
        return i;
      }
      i := i + 1;
    }
    i := 0;
    while i < |cols|
      invariant 0 <= i <= |cols|
      invariant FirstMatch(cols, name, false, 0) == FirstMatch(cols, name, false, i)
    {
      var low := Lower(cols[i]);
      var found := HasSubstring(low, n);
      if found {
        return i;
      }
      i := i + 1;
    }
    return -1;
  }

  /** `std::string::find` as a scan over the start positions. */
  method HasSubstring(h: string, n: string) returns (found: bool)
    ensures found == Contains(h, n)
  {
    var k := 0;
    while k + |n| <= |h|
      invariant 0 <= k
      invariant forall j :: 0 <= j < k && j <= |h| - |n| ==> !OccursAt(n, h, j)
      decreases |h| - k
    {
      if h[k..k + |n|] == n {
        assert OccursAt(n, h, k);
        return true;
      }
      k := k + 1;
    }
    return false;
  }

  /** A lower-case query equals its lower-cased form. */
  lemma LowerOfLowerCase(s: string)
    requires forall k :: 0 <= k < |s| ==> !('A' <= s[k] <= 'Z')
    ensures Lower(s) == s
  {
  }

  lemma ContainsTransitive(h: string, m: string, n: string)
    requires Contains(h, m) && Contains(m, n)
    ensures Contains(h, n)
  {
    var k1 :| 0 <= k1 <= |h| - |m| && OccursAt(m, h, k1);
    var k2 :| 0 <= k2 <= |m| - |n| && OccursAt(n, m, k2);
    assert m == h[k1..k1 + |m|];
    forall j | 0 <= j < |n| ensures h[k1 + k2 + j] == n[j] {
      assert n[j] == m[k2 + j];
    }
    assert h[k1 + k2..k1 + k2 + |n|] == n;
    assert OccursAt(n, h, k1 + k2);
  }

  /** The last drift-radius fallback (line 102) never finds anything: a column that is or
      contains "drift_radius_mm" also contains "drift_radius", which the first lookup
      would already have returned. */
  lemma DriftRadiusMmFallbackIsDead(cols: seq<string>)
    requires ColumnOf(cols, "drift_radius") == -1
    ensures ColumnOf(cols, "drift_radius_mm") == -1
  {
    LowerOfLowerCase("drift_radius");
    LowerOfLowerCase("drift_radius_mm");
    assert OccursAt("drift_radius", "drift_radius_mm", 0);
    assert Contains("drift_radius_mm", "drift_radius");
    forall i | 0 <= i < |cols|
      ensures !MatchesColumn(cols[i], "drift_radius_mm", true)
      ensures !MatchesColumn(cols[i], "drift_radius_mm", false)
    {
      assert !MatchesColumn(cols[i], "drift_radius", false);
      if Contains(Lower(cols[i]), "drift_radius_mm") {
        ContainsTransitive(Lower(cols[i]), "drift_radius_mm", "drift_radius");
      }
    }
  }

  // ---------------------------------------------------------------------------
  // Column resolution and the required-column check (lines 93-109)
  // ---------------------------------------------------------------------------

  /** The column index of every Hit field, -1 where the lookup failed. */
  datatype Columns = Columns(
    tdcId: int, chnlId: int, eventId: int, triggerLedge: int,
    driftRadius: int, driftTime: int, corrTime: int, adcTime: int)

  /** Lines 93-102: the eight lookups and the two drift-radius fallbacks. */
  function ResolveColumns(cols: seq<string>): (ix: Columns) {
    var d0 := ColumnOf(cols, "drift_radius");
    var d1 := if d0 == -1 then ColumnOf(cols, "driftradius") else d0;
    var d2 := if d1 == -1 then ColumnOf(cols, "drift_radius_mm") else d1;
    Columns(
      ColumnOf(cols, "TDCID"), ColumnOf(cols, "CHNLID"), ColumnOf(cols, "eventid"),
      ColumnOf(cols, "triggerledge"), d2,
      ColumnOf(cols, "drift_time"), ColumnOf(cols, "corr_time"), ColumnOf(cols, "adc_time"))
  }

  /** The lookups as the program runs them. */
  method LocateColumns(cols: seq<string>) returns (ix: Columns)
    ensures ix == ResolveColumns(cols)
  {
    var tdc := FindCol(cols, "TDCID");
    var chnl := FindCol(cols, "CHNLID");
    var ev := FindCol(cols, "eventid");
    var trig := FindCol(cols, "triggerledge");
    var drift := FindCol(cols, "drift_radius");
    var driftTime := FindCol(cols, "drift_time");
    var corrTime := FindCol(cols, "corr_time");
    var adcTime := FindCol(cols, "adc_time");
    if drift == -1 { drift := FindCol(cols, "driftradius"); }
    if drift == -1 { drift := FindCol(cols, "drift_radius_mm"); }
    ix := Columns(tdc, chnl, ev, trig, drift, driftTime, corrTime, adcTime);
  }

  /** The check of line 104 as written: only five of the eight fields are required. */
  predicate HasRequiredColumnsAsWritten(ix: Columns) {
    ix.tdcId >= 0 && ix.chnlId >= 0 && ix.eventId >= 0 && ix.triggerLedge >= 0 && ix.driftRadius >= 0
  }

  /** The corrected check: every field the row parser reads must have a column. */
  predicate HasRequiredColumns(ix: Columns) {
    && HasRequiredColumnsAsWritten(ix)
    && ix.driftTime >= 0 && ix.corrTime >= 0 && ix.adcTime >= 0
  }

  /** Every field index lies inside a row of `width` tokens. */
  predicate IndexesRow(ix: Columns, width: int) {
    && 0 <= ix.tdcId < width && 0 <= ix.chnlId < width && 0 <= ix.eventId < width
    && 0 <= ix.triggerLedge < width && 0 <= ix.driftRadius < width
    && 0 <= ix.driftTime < width && 0 <= ix.corrTime < width && 0 <= ix.adcTime < width
  }

  /** With the corrected check passed, every index the row parser uses is a column, so
      it lies inside every row once the row is padded to the header's width. */
  lemma RequiredColumnsIndexRows(cols: seq<string>)
    requires HasRequiredColumns(ResolveColumns(cols))
    ensures IndexesRow(ResolveColumns(cols), |cols|)
  {
  }

  lemma LowerTdcid()
    ensures Lower("TDCID") == "tdcid" && Lower("CHNLID") == "chnlid"
  {
    assert LowerChar('T') == 't' && LowerChar('D') == 'd' && LowerChar('C') == 'c' && LowerChar('I') == 'i';
    assert LowerChar('H') == 'h' && LowerChar('N') == 'n' && LowerChar('L') == 'l';
  }

  /** A header holding just the five checked columns. */
  const FiveColumnHeader: seq<string> := ["tdcid", "chnlid", "eventid", "triggerledge", "drift_radius"]

  /** The five checked lookups find their columns in FiveColumnHeader. */
  lemma FiveColumnsFound()
    ensures HasRequiredColumnsAsWritten(ResolveColumns(FiveColumnHeader))
  {
    var cols := FiveColumnHeader;
    LowerTdcid();
    LowerOfLowerCase("tdcid");
    LowerOfLowerCase("chnlid");
    LowerOfLowerCase("eventid");
    LowerOfLowerCase("triggerledge");
    LowerOfLowerCase("drift_radius");
    assert MatchesColumn(cols[0], "TDCID", true);
    assert MatchesColumn(cols[1], "CHNLID", true);
    assert MatchesColumn(cols[2], "eventid", true);
    assert MatchesColumn(cols[3], "triggerledge", true);
    assert MatchesColumn(cols[4], "drift_radius", true);
  }

  /** An occurrence of drift_time at k puts a 'd' at k and a 't' at k + 6. */
  lemma DriftTimeLetters(h: string, k: int)
    ensures OccursAt("drift_time", h, k) ==> h[k] == 'd' && h[k + 6] == 't'
  {
    if OccursAt("drift_time", h, k) {
      assert h[k] == h[k..k + 10][0];
      assert h[k + 6] == h[k..k + 10][6];
    }
  }

  /** A lower-case column name whose windows of ten characters never spell drift_time. */
  lemma NoDriftTimeIn(h: string)
    requires Lower(h) == h && Lower("drift_time") == "drift_time"
    requires forall k :: 0 <= k <= |h| - 10 ==> h[k] != 'd' || h[k + 6] != 't'
    ensures !MatchesColumn(h, "drift_time", true) && !MatchesColumn(h, "drift_time", false)
  {
    forall k | 0 <= k <= |h| - |"drift_time"|
      ensures !OccursAt("drift_time", h, k)
    {
      DriftTimeLetters(h, k);
    }
    DriftTimeLetters(h, 0);
    assert OccursAt("drift_time", "drift_time", 0);
  }

  /** No column of FiveColumnHeader equals or contains "drift_time". */
  lemma NoDriftTimeColumn()
    ensures ColumnOf(FiveColumnHeader, "drift_time") == -1
  {
    var cols := FiveColumnHeader;
    LowerOfLowerCase("drift_time");
    forall i | 0 <= i < |cols|
      ensures !MatchesColumn(cols[i], "drift_time", true)
      ensures !MatchesColumn(cols[i], "drift_time", false)
    {
      LowerOfLowerCase(cols[i]);
      NoDriftTimeIn(cols[i]);
    }
  }

  /** The check as written admits a header without a drift_time column; the row parser
      then indexes its tokens with -1 (line 130), which is outside every row. */
  lemma RequiredCheckAsWrittenAdmitsMissingTime()
    ensures HasRequiredColumnsAsWritten(ResolveColumns(FiveColumnHeader))
    ensures ResolveColumns(FiveColumnHeader).driftTime == -1
    ensures !HasRequiredColumns(ResolveColumns(FiveColumnHeader))
  {
    FiveColumnsFound();
    NoDriftTimeColumn();
  }

  // ---------------------------------------------------------------------------
  // Rows (lines 111-138)
  // ---------------------------------------------------------------------------

  /** `tokens.resize(cols.size())` when the row is short: pad with empty fields. */
  function PadTokens(tokens: seq<string>, width: int): (r: seq<string>)
    ensures |r| >= width && |r| >= |tokens|
    ensures forall k :: 0 <= k < |tokens| ==> r[k] == tokens[k]
    ensures forall k :: |tokens| <= k < |r| ==> r[k] == ""
  {
    if |tokens| < width then tokens + seq(width - |tokens|, _ => "") else tokens
  }

  /** The try block of lines 124-133: every field must parse, or the row yields nothing. */
  function ParseHit(tokens: seq<string>, ix: Columns, num: Numerics): Option<Hit>
    requires IndexesRow(ix, |tokens|)
  {
    var tdc :- num.stoi(tokens[ix.tdcId]);
    var chnl :- num.stoi(tokens[ix.chnlId]);
    var ev :- num.stoi(tokens[ix.eventId]);
    var trig :- num.stoi(tokens[ix.triggerLedge]);
    var radius :- num.stod(tokens[ix.driftRadius]);
    var driftTime :- num.stod(tokens[ix.driftTime]);
    var corrTime :- num.stod(tokens[ix.corrTime]);
    var adcTime :- num.stod(tokens[ix.adcTime]);
    Some(Hit(tdc, chnl, ev, trig, driftTime, adcTime, corrTime, radius))
  }

  /** One data line: empty lines are skipped; otherwise split, pad and parse. */
  function ParseLine(line: string, width: int, ix: Columns, num: Numerics): Option<Hit>
    requires IndexesRow(ix, width)
  {
    if line == "" then None else ParseHit(PadTokens(GetlineFields(line), width), ix, num)
  }

  /** The hits of the data lines, in order, skipping every line that yields none. */
  function ParseRows(lines: seq<string>, width: int, ix: Columns, num: Numerics): seq<Hit>
    requires IndexesRow(ix, width)
  {
    if lines == [] then []
    else
      var init := ParseRows(lines[..|lines| - 1], width, ix, num);
      match ParseLine(lines[|lines| - 1], width, ix, num)
      case Some(h) => init + [h]
      case None => init
  }

  /** The number of data lines that parse. */
  function CountParsed(lines: seq<string>, width: int, ix: Columns, num: Numerics): nat
    requires IndexesRow(ix, width)
  {
    if lines == [] then 0
    else CountParsed(lines[..|lines| - 1], width, ix, num)
         + (if ParseLine(lines[|lines| - 1], width, ix, num).Some? then 1 else 0)
  }

  /** A malformed line skips only itself: parsing a concatenation parses each part. */
  lemma {:induction false} ParseRowsAppend(a: seq<string>, b: seq<string>, width: int, ix: Columns, num: Numerics)
    requires IndexesRow(ix, width)
    ensures ParseRows(a + b, width, ix, num) == ParseRows(a, width, ix, num) + ParseRows(b, width, ix, num)
    decreases |b|
  {
    if b == [] {
      assert a + b == a;
    } else {
      var b' := b[..|b| - 1];
      assert (a + b)[..|a + b| - 1] == a + b';
      assert (a + b)[|a + b| - 1] == b[|b| - 1];
      ParseRowsAppend(a, b', width, ix, num);
    }
  }

  /** The hit count is the number of lines that parse: total lines minus malformed ones. */
  lemma {:induction false} ParseRowsCount(lines: seq<string>, width: int, ix: Columns, num: Numerics)
    requires IndexesRow(ix, width)
    ensures |ParseRows(lines, width, ix, num)| == CountParsed(lines, width, ix, num) <= |lines|
  {
    if lines != [] {
      ParseRowsCount(lines[..|lines| - 1], width, ix, num);
    }
  }

  /** Each line that parses contributes its hit, at its place among the others. */
  lemma ParseRowsSingleton(line: string, width: int, ix: Columns, num: Numerics)
    requires IndexesRow(ix, width)
    ensures ParseRows([line], width, ix, num) ==
            if ParseLine(line, width, ix, num).Some? then [ParseLine(line, width, ix, num).value] else []
  {
    assert [line][..0] == [];
  }

  /** k is the column of one of the eight fields the row parser reads. */
  predicate IsFieldIndex(ix: Columns, k: int) {
    || k == ix.tdcId || k == ix.chnlId || k == ix.eventId || k == ix.triggerLedge
    || k == ix.driftRadius || k == ix.driftTime || k == ix.corrTime || k == ix.adcTime
  }

  /** A row too short to reach any field the parser reads is padded with an empty field
      there, which the parsers reject, so the row is skipped. */
  lemma ShortRowIsSkipped(line: string, width: int, ix: Columns, num: Numerics, k: int)
    requires IndexesRow(ix, width) && RejectsEmptyField(num)
    requires line != ""
    requires IsFieldIndex(ix, k) && |GetlineFields(line)| <= k
    ensures ParseLine(line, width, ix, num) == None
  {
    var tokens := PadTokens(GetlineFields(line), width);
    assert tokens[k] == "";
  }

  /** The data-line loop of lines 115-138. */
  method LoadHits(lines: seq<string>, width: int, ix: Columns, num: Numerics) returns (hits: seq<Hit>)
    requires IndexesRow(ix, width)
    ensures hits == ParseRows(lines, width, ix, num)
  {
    hits := [];
    var i := 0;
    while i < |lines|
      invariant 0 <= i <= |lines|
      invariant hits == ParseRows(lines[..i], width, ix, num)
    {
      assert lines[..i + 1][..i] == lines[..i];
      var line := lines[i];
      i := i + 1;
      if line == "" {
        continue;
      }
      var tokens := SplitFields(line);
      tokens := PadTokens(tokens, width);
      var h := ParseHit(tokens, ix, num);
      if h.None? {
        continue;
      }
      hits := hits + [h.value];
    }
    assert lines[..i] == lines;
  }
}
