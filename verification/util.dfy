/** Display formatting shared by client and server: the default port, the
    short local timestamp, and the `[timestamp channel/TAG]` log prefix with
    the colour chosen for its severity. The colouring itself (a terminal
    escape around the text) is not modelled; the prefix records which colour
    was picked. */
module Util {
  import opened Wrappers
  import opened Types
  import Text

  /** `DEFAULT_LOGSERVER_PORT`. */
  const DefaultLogServerPort: nat := 7031

  /** The local-time fields a `Date` reports: `getFullYear()`, `getMonth()`
      (0-based), `getDate()`, `getHours()`, `getMinutes()`, `getSeconds()`. */
  datatype DateFields = DateFields(year: int, month0: nat, day: nat, hours: nat, minutes: nat, seconds: nat)

  /** `year % 100` with JavaScript's `%`, which truncates toward zero: the
      result has the sign of the year. */
  function YearMod100(year: int): (r: int)
    ensures year >= 0 ==> 0 <= r < 100
    ensures year < 0 ==> -100 < r <= 0
    ensures (year - r) % 100 == 0
  {
    if year >= 0 then year % 100 else -((-year) % 100)
  }

  /** `yy/m/d`: the year modulo 100 (sign kept), month and day, none padded. */
  function DatePart(f: DateFields): string {
    Text.IntToString(YearMod100(f.year)) + "/" + Text.NatToString(f.month0 + 1) + "/" + Text.NatToString(f.day)
  }

  /** `hh:mm:ss`, each field padded with '0' to two characters. */
  function TimePart(f: DateFields): string {
    Text.Pad2(f.hours) + ":" + Text.Pad2(f.minutes) + ":" + Text.Pad2(f.seconds)
  }

  /** The date part is its three numbers joined by '/', none containing '/' or ' '. */
  lemma DatePartPieces(f: DateFields)
    ensures var ys, ms, ds := Text.IntToString(YearMod100(f.year)), Text.NatToString(f.month0 + 1), Text.NatToString(f.day);
      && Text.Split(DatePart(f), '/') == [ys, ms, ds]
      && Text.Free(DatePart(f), ' ')
  {
    var ys, ms, ds := Text.IntToString(YearMod100(f.year)), Text.NatToString(f.month0 + 1), Text.NatToString(f.day);
    Text.IntToStringFree(YearMod100(f.year), '/');
    Text.IntToStringFree(YearMod100(f.year), ' ');
    Text.DigitsFree(ms, '/');
    Text.DigitsFree(ms, ' ');
    Text.DigitsFree(ds, '/');
    Text.DigitsFree(ds, ' ');
    Text.JoinThree(ys, ms, ds, '/', ' ');
    assert DatePart(f) == ys + ['/'] + ms + ['/'] + ds;
  }

  /** The time part is its three padded fields joined by ':', with no ' '. */
  lemma TimePartPieces(f: DateFields)
    ensures var hs, mis, ss := Text.Pad2(f.hours), Text.Pad2(f.minutes), Text.Pad2(f.seconds);
      && Text.Split(TimePart(f), ':') == [hs, mis, ss]
      && Text.Free(TimePart(f), ' ')
  {
    var hs, mis, ss := Text.Pad2(f.hours), Text.Pad2(f.minutes), Text.Pad2(f.seconds);
    Text.DigitsFree(hs, ':');
    Text.DigitsFree(hs, ' ');
    Text.DigitsFree(mis, ':');
    Text.DigitsFree(mis, ' ');
    Text.DigitsFree(ss, ':');
    Text.DigitsFree(ss, ' ');
    Text.JoinThree(hs, mis, ss, ':', ' ');
    assert TimePart(f) == hs + [':'] + mis + [':'] + ss;
  }

  /** Neither part contains a space, so the one between them splits them apart. */
  lemma PartsSplit(f: DateFields)
    ensures Text.Split(DatePart(f) + " " + TimePart(f), ' ') == [DatePart(f), TimePart(f)]
  {
    DatePartPieces(f);
    TimePartPieces(f);
    Text.SplitJoin([DatePart(f), TimePart(f)], ' ');
  }

  /** `getTimestamp`: a date and a clock time separated by the only space. */
  function Timestamp(f: DateFields): (t: string)
    ensures Text.Split(t, ' ') == [DatePart(f), TimePart(f)]
  {
    PartsSplit(f);
    DatePart(f) + " " + TimePart(f)
  }

  /** The six fields a reader of a `yy/m/d hh:mm:ss` text sees, or none when
      the text does not have that shape. */
  function Fields(t: string): (fs: seq<string>)
    ensures fs == [] || |fs| == 6
  {
    var halves := Text.Split(t, ' ');
    if |halves| != 2 then []
    else
      var d := Text.Split(halves[0], '/');
      var c := Text.Split(halves[1], ':');
      if |d| != 3 || |c| != 3 then [] else d + c
  }

  /** What a reader of a timestamp can recover from it. */
  datatype ShownDate = ShownDate(year2: int, month: nat, day: nat, hours: nat, minutes: nat, seconds: nat)

  /** Reads a `yy/m/d hh:mm:ss` text back. */
  function ParseTimestamp(t: string): Option<ShownDate> {
    var fs := Fields(t);
    if fs == [] then None else ParseFields(fs)
  }

  /** The time part has exactly eight characters whenever every clock field
      is below 100 (always so for real clock readings 0..59). */
  lemma TimePartWidth(f: DateFields)
    requires f.hours < 100 && f.minutes < 100 && f.seconds < 100
    ensures |TimePart(f)| == 8
  {
    Text.Pad2Width(f.hours);
    Text.Pad2Width(f.minutes);
    Text.Pad2Width(f.seconds);
  }

  /** The six renderings `getTimestamp` puts into its text. */
  function Rendered(f: DateFields): seq<string> {
    [Text.IntToString(YearMod100(f.year)), Text.NatToString(f.month0 + 1), Text.NatToString(f.day),
     Text.Pad2(f.hours), Text.Pad2(f.minutes), Text.Pad2(f.seconds)]
  }

  /** The six fields a reader finds in a timestamp are the six renderings. */
  lemma TimestampFields(f: DateFields)
    ensures Fields(Timestamp(f)) == Rendered(f)
  {
    DatePartPieces(f);
    TimePartPieces(f);
  }

  /** Shown date fields carry no leading zero; clock fields are at least two
      digits wide. */
  predicate WellShown(fs: seq<string>) {
    && |fs| == 6
    && Text.NoLeadingZero(fs[0]) && Text.NoLeadingZero(fs[1]) && Text.NoLeadingZero(fs[2])
    && |fs[3]| >= 2 && |fs[4]| >= 2 && |fs[5]| >= 2
  }

  /** Reading the six fields back as numbers. */
  function ParseFields(fs: seq<string>): Option<ShownDate>
    requires |fs| == 6
  {
    var y :- Text.ParseInt(fs[0]);
    var mo :- Text.ParseNat(fs[1]);
    var dy :- Text.ParseNat(fs[2]);
    var h :- Text.ParseNat(fs[3]);
    var mi :- Text.ParseNat(fs[4]);
    var s :- Text.ParseNat(fs[5]);
    Some(ShownDate(y, mo, dy, h, mi, s))
  }

  lemma RenderedShape(f: DateFields)
    ensures WellShown(Rendered(f))
  {
    var ys, ms, ds := Text.IntToString(YearMod100(f.year)), Text.NatToString(f.month0 + 1), Text.NatToString(f.day);
    var hs, mis, ss := Text.Pad2(f.hours), Text.Pad2(f.minutes), Text.Pad2(f.seconds);
    assert Rendered(f) == [ys, ms, ds, hs, mis, ss];
  }

  /** Six fields parse to the six numbers they each parse to. */
  lemma ParseSix(ys: string, ms: string, ds: string, hs: string, mis: string, ss: string, d: ShownDate)
    requires Text.ParseInt(ys) == Some(d.year2)
    requires Text.ParseNat(ms) == Some(d.month) && Text.ParseNat(ds) == Some(d.day)
    requires Text.ParseNat(hs) == Some(d.hours) && Text.ParseNat(mis) == Some(d.minutes)
    requires Text.ParseNat(ss) == Some(d.seconds)
    ensures ParseFields([ys, ms, ds, hs, mis, ss]) == Some(d)
  {
  }

  /** The year field reads back as the year modulo 100. */
  lemma YearFieldRoundTrip(f: DateFields)
    ensures Text.ParseInt(Rendered(f)[0]) == Some(YearMod100(f.year))
  {
    var y := YearMod100(f.year);
    assert Rendered(f)[0] == Text.IntToString(y);
    Text.IntToStringRoundTrip(y);
  }

  /** The month and day fields read back as the 1-based month and the day. */
  lemma DayFieldsRoundTrip(f: DateFields)
    ensures Text.ParseNat(Rendered(f)[1]) == Some(f.month0 + 1)
    ensures Text.ParseNat(Rendered(f)[2]) == Some(f.day)
  {
    Text.NatToStringRoundTrip(f.month0 + 1);
    Text.NatToStringRoundTrip(f.day);
  }

  /** The clock fields read back as hours, minutes and seconds. */
  lemma ClockFieldsRoundTrip(f: DateFields)
    ensures Text.ParseNat(Rendered(f)[3]) == Some(f.hours)
    ensures Text.ParseNat(Rendered(f)[4]) == Some(f.minutes)
    ensures Text.ParseNat(Rendered(f)[5]) == Some(f.seconds)
  {
    Text.Pad2RoundTrip(f.hours);
    Text.Pad2RoundTrip(f.minutes);
    Text.Pad2RoundTrip(f.seconds);
  }

  lemma RenderedRoundTrip(f: DateFields)
    ensures ParseFields(Rendered(f)) == Some(ShownDate(YearMod100(f.year), f.month0 + 1, f.day, f.hours, f.minutes, f.seconds))
  {
    var fs := Rendered(f);
    YearFieldRoundTrip(f);
    DayFieldsRoundTrip(f);
    ClockFieldsRoundTrip(f);
    assert fs == [fs[0], fs[1], fs[2], fs[3], fs[4], fs[5]];
    ParseSix(fs[0], fs[1], fs[2], fs[3], fs[4], fs[5], ShownDate(YearMod100(f.year), f.month0 + 1, f.day, f.hours, f.minutes, f.seconds));
  }

  /** The timestamp has six fields: the three date fields (year modulo 100,
      1-based month, day) carry no leading zero, and the three clock fields
      are at least two digits wide. */
  lemma TimestampShape(f: DateFields)
    ensures WellShown(Fields(Timestamp(f)))
  {
    TimestampFields(f);
    RenderedShape(f);
  }

  /** The timestamp shows the year modulo 100, the 1-based month, the day and
      the clock fields, and nothing is lost: parsing it gives them back. */
  lemma TimestampRoundTrip(f: DateFields)
    ensures ParseTimestamp(Timestamp(f))
         == Some(ShownDate(YearMod100(f.year), f.month0 + 1, f.day, f.hours, f.minutes, f.seconds))
  {
    TimestampFields(f);
    RenderedRoundTrip(f);
  }

  /** `SeverityTags`. */
  function TagOf(s: Severity): string {
    match s
    case Trace => "TRACE"
    case Debug => "DEBUG"
    case Info => "INFO"
    case Warn => "WARN"
    case Error => "ERROR"
  }

  /** `SeverityColors`. */
  function ColorOf(s: Severity): string {
    match s
    case Trace => "#6A04E8"
    case Debug => "#6A04E8"
    case Info => "#FFFFFF"
    case Warn => "#FFD000"
    case Error => "#FF0000"
  }

  /** Indexing a `Record<LogSeverity, …>` object: the key is the value's string
      form, and only the five keys "0".."4" are present. */
  function SeverityKey(v: JsValue): Option<Severity> {
    var k := JsToString(v);
    if k == "0" then Some(Trace)
    else if k == "1" then Some(Debug)
    else if k == "2" then Some(Info)
    else if k == "3" then Some(Warn)
    else if k == "4" then Some(Error)
    else None
  }

  /** `SeverityTags[severity] ?? 'INFO'`: a number 0..4 shows the tag of the
      enum member it names, anything without an entry shows INFO. */
  function Tag(severity: JsValue): (tag: string)
    ensures severity.Num? && 0 <= severity.n <= 4 ==> tag == TagOf(FromOrdinal(severity.n).value)
    ensures severity.Num? && !(0 <= severity.n <= 4) ==> tag == "INFO"
    ensures tag in {"TRACE", "DEBUG", "INFO", "WARN", "ERROR"}
  {
    NumericKey(if severity.Num? then severity.n else 0);
    match SeverityKey(severity)
    case Some(s) => TagOf(s)
    case None => "INFO"
  }

  /** `SeverityColors[severity] ?? '#FFFFFF'`: a number 0..4 gets the colour
      of the enum member it names, anything without an entry white. */
  function Color(severity: JsValue): (color: string)
    ensures severity.Num? && 0 <= severity.n <= 4 ==> color == ColorOf(FromOrdinal(severity.n).value)
    ensures severity.Num? && !(0 <= severity.n <= 4) ==> color == "#FFFFFF"
    ensures color in {"#6A04E8", "#FFFFFF", "#FFD000", "#FF0000"}
  {
    NumericKey(if severity.Num? then severity.n else 0);
    match SeverityKey(severity)
    case Some(s) => ColorOf(s)
    case None => "#FFFFFF"
  }

  /** A numeric severity finds its entry exactly when it is an enum value. */
  lemma NumericKey(n: int)
    ensures SeverityKey(Num(n)) == FromOrdinal(n)
  {
    var k := JsToString(Num(n));
    if k == "0" { Text.IntToStringInjective(n, 0); }
    else if k == "1" { Text.IntToStringInjective(n, 1); }
    else if k == "2" { Text.IntToStringInjective(n, 2); }
    else if k == "3" { Text.IntToStringInjective(n, 3); }
    else if k == "4" { Text.IntToStringInjective(n, 4); }
    else {
      assert Text.IntToString(0) == "0" && Text.IntToString(1) == "1" && Text.IntToString(2) == "2";
      assert Text.IntToString(3) == "3" && Text.IntToString(4) == "4";
    }
  }

  /** Severities 0..4 show TRACE, DEBUG, INFO, WARN, ERROR; every other number
      falls back to INFO and the white colour. */
  lemma SeverityTagTable(n: int)
    ensures Tag(Num(n)) == (if n == 0 then "TRACE" else if n == 1 then "DEBUG"
                            else if n == 3 then "WARN" else if n == 4 then "ERROR" else "INFO")
    ensures !(0 <= n <= 4) ==> Color(Num(n)) == "#FFFFFF"
  {
    NumericKey(n);
  }

  /** The tags tell severities apart; the colours do not: Trace and Debug
      share one, and Info's equals the fallback. */
  lemma TagsDistinctColorsShared(a: Severity, b: Severity)
    ensures TagOf(a) == TagOf(b) ==> a == b
    ensures ColorOf(Trace) == ColorOf(Debug) == "#6A04E8"
    ensures ColorOf(Info) == "#FFFFFF"
  {
  }

  /** A prefix as printed: its text and, when colourised, the chosen colour. */
  datatype Prefix = Prefix(text: string, color: Option<string>)

  /** The bracketed prefix text: `[ts extra/tag]`, or `[ts tag]` when `extra` is empty. */
  function PrefixText(ts: string, extra: string, tag: string): (text: string)
    ensures |text| >= 2 && text[0] == '[' && text[|text| - 1] == ']'
  {
    if extra != "" then "[" + ts + " " + extra + "/" + tag + "]" else "[" + ts + " " + tag + "]"
  }

  /** `getLogPrefix(severity, extra, timestamp, colorize)`, with the timestamp
      given by its local-time fields. */
  function LogPrefix(severity: JsValue, extra: string, time: DateFields, colorize: bool): (p: Prefix)
    ensures colorize <==> p.color.Some?
    ensures colorize && severity.Num? && 0 <= severity.n <= 4 ==> p.color == Some(ColorOf(FromOrdinal(severity.n).value))
    ensures colorize && SeverityKey(severity).None? ==> p.color == Some("#FFFFFF")
  {
    Prefix(PrefixText(Timestamp(time), extra, Tag(severity)), if colorize then Some(Color(severity)) else None)
  }

  predicate IsTagBoundary(c: char) {
    c == ' ' || c == '/'
  }

  /** The characters after the last space or slash. */
  function LastWord(s: string): (w: string)
    ensures |w| <= |s|
  {
    if s == [] then []
    else if IsTagBoundary(s[|s| - 1]) then []
    else LastWord(s[..|s| - 1]) + [s[|s| - 1]]
  }

  /** The tag a reader sees in a prefix: the last word before the closing ']'. */
  function ShownTag(text: string): string {
    if text != [] then LastWord(text[..|text| - 1]) else []
  }

  lemma {:induction false} LastWordAfterBoundary(p: string, b: char, w: string)
    requires IsTagBoundary(b)
    requires forall i :: 0 <= i < |w| ==> !IsTagBoundary(w[i])
    ensures LastWord(p + [b] + w) == w
    decreases |w|
  {
    var s := p + [b] + w;
    if w == [] {
      assert s[|s| - 1] == b;
    } else {
      assert s[..|s| - 1] == p + [b] + w[..|w| - 1];
      LastWordAfterBoundary(p, b, w[..|w| - 1]);
      assert w[..|w| - 1] + [w[|w| - 1]] == w;
    }
  }

  lemma TagIsOneWord(severity: JsValue)
    ensures forall i :: 0 <= i < |Tag(severity)| ==> !IsTagBoundary(Tag(severity)[i])
  {
  }

  /** Whatever the timestamp and extra, the text ends in a one-word tag, which
      a reader can therefore pick out. */
  lemma PrefixTextShowsTag(ts: string, extra: string, tag: string)
    requires forall i :: 0 <= i < |tag| ==> !IsTagBoundary(tag[i])
    ensures ShownTag(PrefixText(ts, extra, tag)) == tag
  {
    var text := PrefixText(ts, extra, tag);
    var body := text[..|text| - 1];
    if extra != "" {
      assert body == ("[" + ts + " " + extra) + ['/'] + tag;
      LastWordAfterBoundary("[" + ts + " " + extra, '/', tag);
    } else {
      assert body == ("[" + ts) + [' '] + tag;
      LastWordAfterBoundary("[" + ts, ' ', tag);
    }
  }

  /** The printed prefix names the severity's tag (the fallback INFO for an
      unknown severity), whether or not `extra` is shown. */
  lemma PrefixShowsTag(severity: JsValue, extra: string, time: DateFields, colorize: bool)
    ensures ShownTag(LogPrefix(severity, extra, time, colorize).text) == Tag(severity)
  {
    TagIsOneWord(severity);
    PrefixTextShowsTag(Timestamp(time), extra, Tag(severity));
  }

  /** The layout: after '[' come the timestamp and a space, then `extra/TAG`
      with an extra or `TAG` alone without one, then ']'. */
  lemma PrefixTextLayout(ts: string, extra: string, tag: string)
    ensures var text := PrefixText(ts, extra, tag);
      && text[1..|ts| + 2] == ts + " "
      && (extra != "" ==> text[|ts| + 2..|text| - 1] == extra + "/" + tag)
      && (extra == "" ==> text[|ts| + 2..|text| - 1] == tag)
  {
    var text := PrefixText(ts, extra, tag);
    if extra != "" {
      assert text == "[" + (ts + " ") + (extra + "/" + tag) + "]";
    } else {
      assert text == "[" + (ts + " ") + tag + "]";
    }
  }

  /** Turning colour off changes nothing but the colour: the text is the same. */
  lemma PlainPrefixIsText(severity: JsValue, extra: string, time: DateFields)
    ensures LogPrefix(severity, extra, time, false) == Prefix(LogPrefix(severity, extra, time, true).text, None)
  {
  }
}
