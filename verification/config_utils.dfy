/**
 * The response envelope every endpoint answers with, and the name of the
 * day's JSON log file.
 */
module ConfigUtils {
  import opened Wrappers
  import opened Text

  /** A JSON value, as a response body holds it; `JNull` is Python's `None`. */
  datatype Json =
    | JNull
    | JBool(b: bool)
    | JInt(n: int)
    | JStr(s: string)
    | JList(items: seq<Json>)
    | JObject(fields: map<string, Json>)

  /** A response: its body (`None` for a response without a `data` attribute) and its HTTP status. */
  datatype Response = Response(data: Option<Json>, statusCode: int)

  /** The four keys of the envelope. */
  const EnvelopeKeys: set<string> := {"status", "data", "status_code", "error"}

  /** `standard_response`. */
  function StandardResponse(data: Json, statusCode: int, error: Option<seq<string>>): (r: Response)
    ensures r.statusCode == statusCode
    ensures r.data.Some? && r.data.value.JObject? && r.data.value.fields.Keys == EnvelopeKeys
    ensures r.data.value.fields["status"] == (if statusCode < 400 then JStr("SUCCESS") else JStr("FAILED"))
    ensures r.data.value.fields["status_code"] == JInt(statusCode)
    ensures data != JNull ==> r.data.value.fields["data"] == data
    ensures data == JNull ==> r.data.value.fields["data"] == JObject(map[])
    ensures error.None? ==> r.data.value.fields["error"] == JList([])
    ensures error.Some? ==>
      && r.data.value.fields["error"].JList?
      && |r.data.value.fields["error"].items| == |error.value|
      && forall i | 0 <= i < |error.value| :: r.data.value.fields["error"].items[i] == JStr(error.value[i])
  {
    var errors := match error
      case None => []
      case Some(es) => seq(|es|, i requires 0 <= i < |es| => JStr(es[i]));
    Response(Some(JObject(map[
      "status" := if statusCode < 400 then JStr("SUCCESS") else JStr("FAILED"),
      "data" := if data != JNull then data else JObject(map[]),
      "status_code" := JInt(statusCode),
      "error" := JList(errors)])), statusCode)
  }

  /** A status below 400 is reported as a success, any other as a failure. */
  lemma SuccessIffBelow400(data: Json, statusCode: int, error: Option<seq<string>>)
    ensures StandardResponse(data, statusCode, error).data.value.fields["status"] == JStr("SUCCESS")
            <==> statusCode < 400
    ensures StandardResponse(data, statusCode, error).data.value.fields["status"] == JStr("FAILED")
            <==> statusCode >= 400
  {
  }

  // ---------------------------------------------------------------------------
  // The day's log file
  // ---------------------------------------------------------------------------

  /** The position of the last `c` in `s`. */
  function LastIndex(s: string, c: char): (r: Option<nat>)
    ensures r.Some? ==> r.value < |s| && s[r.value] == c && forall i | r.value < i < |s| :: s[i] != c
    ensures r.None? ==> forall i | 0 <= i < |s| :: s[i] != c
  {
    if s == [] then None
    else if s[|s| - 1] == c then Some(|s| - 1)
    else LastIndex(s[..|s| - 1], c)
  }

  predicate AllDots(s: string) {
    forall i | 0 <= i < |s| :: s[i] == '.'
  }

  /**
   * `os.path.splitext`: the extension runs from the last '.' after the last
   * '/', unless only dots precede that '.' in the last path component.
   */
  function SplitExt(path: string): (r: (string, string))
    ensures r.0 + r.1 == path
    ensures r.1 == [] || (r.1[0] == '.' && '.' !in r.1[1..] && '/' !in r.1)
  {
    var sep := LastIndex(path, '/');
    var dot := LastIndex(path, '.');
    if dot.Some? && (sep.None? || dot.value > sep.value) then
      var start := if sep.None? then 0 else sep.value + 1;
      if AllDots(path[start..dot.value]) then (path, [])
      else
        assert path[..dot.value] + path[dot.value..] == path;
        (path[..dot.value], path[dot.value..])
    else (path, [])
  }

  /** A calendar date; the clock that supplies today's date is a parameter. */
  datatype Date = Date(year: nat, month: nat, day: nat)

  function Zeros(n: nat): (r: string)
    ensures |r| == n && AllDigits(r)
  {
    if n == 0 then [] else "0" + Zeros(n - 1)
  }

  /** The digits of `n`, padded on the left with zeros to `width`. */
  function ZeroPad(n: nat, width: nat): (r: string)
    ensures |r| >= width && AllDigits(r)
  {
    var digits := NatToString(n);
    if |digits| >= width then digits else Zeros(width - |digits|) + digits
  }

  /** `strftime("%Y-%m-%d")`. */
  function FormatDate(d: Date): (r: string)
    ensures |r| >= 10 && '.' !in r && '/' !in r
  {
    var s := ZeroPad(d.year, 4) + "-" + ZeroPad(d.month, 2) + "-" + ZeroPad(d.day, 2);
    assert forall i | 0 <= i < |s| :: IsDigit(s[i]) || s[i] == '-';
    s
  }

  /**
   * Reads a `YYYY-MM-DD` text back: the month and the day are the last two
   * fields of two digits each, the year is everything before them.
   */
  function ParseDate(s: string): (r: Option<Date>)
    ensures r.Some? ==> |s| >= 6 && s[|s| - 6] == '-' && s[|s| - 3] == '-'
  {
    if |s| >= 6 && s[|s| - 6] == '-' && s[|s| - 3] == '-'
       && AllDigits(s[..|s| - 6]) && AllDigits(s[|s| - 5..|s| - 3]) && AllDigits(s[|s| - 2..])
    then Some(Date(DigitsValue(s[..|s| - 6]), DigitsValue(s[|s| - 5..|s| - 3]), DigitsValue(s[|s| - 2..])))
    else None
  }

  lemma {:induction false} ZerosPrefixIgnored(k: nat, s: string)
    requires AllDigits(s)
    ensures AllDigits(Zeros(k) + s) && DigitsValue(Zeros(k) + s) == DigitsValue(s)
    decreases k
  {
    if k == 0 {
      assert Zeros(k) + s == s;
    } else {
      ZerosPrefixIgnored(k - 1, s);
      assert Zeros(k) + s == "0" + (Zeros(k - 1) + s);
      LeadingZeroIgnored(Zeros(k - 1) + s);
    }
  }

  /** Padding with zeros keeps the value. */
  lemma ZeroPadReadsBack(n: nat, width: nat)
    ensures DigitsValue(ZeroPad(n, width)) == n
  {
    var digits := NatToString(n);
    NatToStringReadsBack(n);
    if |digits| < width {
      ZerosPrefixIgnored(width - |digits|, digits);
      assert ZeroPad(n, width) == Zeros(width - |digits|) + digits;
    } else {
      assert ZeroPad(n, width) == digits;
    }
  }

  /** A number below 100 pads to exactly two digits. */
  lemma TwoDigits(n: nat)
    requires n < 100
    ensures |ZeroPad(n, 2)| == 2
  {
    if n >= 10 {
      assert NatToString(n) == NatToString(n / 10) + [DigitChar(n % 10)];
    }
  }

  /** Where the three fields of a joined date text lie. */
  lemma JoinedFields(y: string, m: string, dd: string)
    requires |m| == 2 && |dd| == 2
    ensures var s := y + "-" + m + "-" + dd;
      && |s| == |y| + 6 && s[|s| - 6] == '-' && s[|s| - 3] == '-'
      && s[..|s| - 6] == y && s[|s| - 5..|s| - 3] == m && s[|s| - 2..] == dd
  {
    var s := y + "-" + m + "-" + dd;
    assert s[..|s| - 6] == y;
    assert s[|s| - 5..|s| - 3] == m;
    assert s[|s| - 2..] == dd;
  }

  /** Three digit fields joined by dashes, the last two of two digits, read back field by field. */
  lemma ParseJoined(y: string, m: string, dd: string)
    requires AllDigits(y) && AllDigits(m) && AllDigits(dd) && |m| == 2 && |dd| == 2
    ensures ParseDate(y + "-" + m + "-" + dd) == Some(Date(DigitsValue(y), DigitsValue(m), DigitsValue(dd)))
  {
    JoinedFields(y, m, dd);
  }

  /** A calendar date reads back from its text: `strftime` and `strptime` with "%Y-%m-%d" agree. */
  lemma FormatDateReadsBack(d: Date)
    requires 1 <= d.month <= 12 && 1 <= d.day <= 31
    ensures ParseDate(FormatDate(d)) == Some(d)
  {
    TwoDigits(d.month);
    TwoDigits(d.day);
    ParseJoined(ZeroPad(d.year, 4), ZeroPad(d.month, 2), ZeroPad(d.day, 2));
    ZeroPadReadsBack(d.year, 4);
    ZeroPadReadsBack(d.month, 2);
    ZeroPadReadsBack(d.day, 2);
  }

  /** The log file of the day: the date goes between the configured name and its extension. */
  function LogFileName(fileName: string, today: Date): (r: string)
    ensures |r| == |fileName| + 1 + |FormatDate(today)|
  {
    var (base, ext) := SplitExt(fileName);
    base + "-" + FormatDate(today) + ext
  }

  /** The last position of a character the appended text does not hold is unchanged. */
  lemma {:induction false} LastIndexAppend(p: string, e: string, c: char)
    requires c !in e
    ensures LastIndex(p + e, c) == LastIndex(p, c)
    decreases |e|
  {
    if e != [] {
      var n := p + e;
      assert n[|n| - 1] == e[|e| - 1] && e[|e| - 1] in e;
      assert forall x | x in e[..|e| - 1] :: x in e;
      assert n[..|n| - 1] == p + e[..|e| - 1];
      LastIndexAppend(p, e[..|e| - 1], c);
    } else {
      assert p + e == p;
    }
  }

  /** Appending an extension puts the last dot at its start. */
  lemma LastDotOfExtension(q: string, ext: string)
    requires ext != [] && ext[0] == '.' && '.' !in ext[1..]
    ensures LastIndex(q + ext, '.') == Some(|q|)
  {
    var n := q + ext;
    assert n[|q|] == '.';
    assert forall i | |q| < i < |n| :: n[i] == ext[1..][i - |q| - 1];
  }

  /** A name ending in neither '.' nor '/' keeps an extension appended to it. */
  lemma SplitAddedExtension(q: string, ext: string)
    requires q != [] && q[|q| - 1] != '.' && q[|q| - 1] != '/'
    requires ext != [] && ext[0] == '.' && '.' !in ext[1..] && '/' !in ext
    ensures SplitExt(q + ext) == (q, ext)
  {
    var n := q + ext;
    LastDotOfExtension(q, ext);
    LastIndexAppend(q, ext, '/');
    var sep := LastIndex(n, '/');
    var start := if sep.None? then 0 else sep.value + 1;
    assert start <= |q| - 1;
    assert n[start..|q|][|q| - 1 - start] == q[|q| - 1];
    assert n[..|q|] == q && n[|q|..] == ext;
  }

  /** Text without '.' or '/' appended to a name without an extension leaves it without one. */
  lemma SplitNoExtension(p: string, s: string)
    requires SplitExt(p).1 == [] && '.' !in s && '/' !in s
    ensures SplitExt(p + s) == (p + s, [])
  {
    var n := p + s;
    LastIndexAppend(p, s, '.');
    LastIndexAppend(p, s, '/');
    var dot := LastIndex(p, '.');
    var sep := LastIndex(p, '/');
    if dot.Some? && (sep.None? || dot.value > sep.value) {
      var start := if sep.None? then 0 else sep.value + 1;
      assert n[start..dot.value] == p[start..dot.value];
      assert AllDots(p[start..dot.value]);
    }
  }

  /**
   * The dated name splits back into the dated base and the original
   * extension: the day's file keeps the configured extension.
   */
  lemma DatedNameKeepsExtension(fileName: string, today: Date)
    ensures SplitExt(LogFileName(fileName, today))
            == (SplitExt(fileName).0 + "-" + FormatDate(today), SplitExt(fileName).1)
  {
    var (base, ext) := SplitExt(fileName);
    var date := FormatDate(today);
    var q := base + "-" + date;
    assert LogFileName(fileName, today) == q + ext;
    if ext != [] {
      assert q[|q| - 1] == ("-" + date)[|date|];
      SplitAddedExtension(q, ext);
    } else {
      assert base == base + ext == fileName;
      assert q == fileName + ("-" + date);
      assert q + ext == q;
      SplitNoExtension(fileName, "-" + date);
    }
  }
}
