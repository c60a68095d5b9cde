/**
 * File names for downloads: a local-time stamp "yyyy-mm-dd_hh-mm" followed by the object
 * name with characters unsafe in file names replaced. The clock reading is passed in as its
 * calendar components.
 */
module FileService {
  import JsString

  /** The stem used when the object name is blank. */
  const DefaultStem := "proekt_SK"

  /** The character class `[\s/\\?%*:|"<>]`: whitespace and the characters unsafe in file names. */
  predicate IsUnsafe(c: char) {
    || JsString.IsWhitespace(c)
    || c == '/' || c == '\\' || c == '?' || c == '%' || c == '*' || c == ':' || c == '|' || c == '"'
    || c == '<' || c == '>'
  }

  /** `s.replace(/[\s/\\?%*:|"<>]/g, '_')`. */
  function ReplaceUnsafe(s: string): (r: string)
    ensures |r| == |s|
    ensures forall i :: 0 <= i < |s| ==> (IsUnsafe(s[i]) ==> r[i] == '_') && (!IsUnsafe(s[i]) ==> r[i] == s[i])
    ensures forall i :: 0 <= i < |r| ==> !IsUnsafe(r[i])
  {
    if s == [] then []
    else [if IsUnsafe(s[0]) then '_' else s[0]] + ReplaceUnsafe(s[1..])
  }

  /**
   * The file-name stem: the trimmed object name, or the default for a blank one, with every
   * unsafe character replaced by '_'.
   */
  function SanitizedName(objectName: string): (r: string)
    ensures JsString.AllWhitespace(objectName) ==> r == DefaultStem
    ensures !JsString.AllWhitespace(objectName) ==>
      |r| == |JsString.Trim(objectName)|
      && forall i :: 0 <= i < |r| ==>
           r[i] == if IsUnsafe(JsString.Trim(objectName)[i]) then '_' else JsString.Trim(objectName)[i]
    ensures r != []
    ensures forall i :: 0 <= i < |r| ==> !IsUnsafe(r[i])
  {
    DefaultStemIsSafe();
    var trimmed := JsString.Trim(objectName);
    ReplaceUnsafe(if trimmed != "" then trimmed else DefaultStem)
  }

  lemma DefaultStemIsSafe()
    ensures ReplaceUnsafe(DefaultStem) == DefaultStem
  {
    SafeTextUnchanged(DefaultStem);
  }

  /** Text without unsafe characters is left as it is. */
  lemma {:induction false} SafeTextUnchanged(s: string)
    requires forall i :: 0 <= i < |s| ==> !IsUnsafe(s[i])
    ensures ReplaceUnsafe(s) == s
  {
    if s != [] {
      SafeTextUnchanged(s[1..]);
    }
  }

  /** `String(n).padStart(2, '0')`. */
  function Pad2(n: nat): (r: string)
    ensures n < 100 ==> |r| == 2 && JsString.IsDigit(r[0]) && JsString.IsDigit(r[1]) && JsString.DecimalValue(r) == n
    ensures n >= 100 ==> r == JsString.DecimalString(n)
  {
    Pad2Digits(n);
    JsString.PadStart(JsString.DecimalString(n), 2, '0')
  }

  /** Padding to two places keeps the value of numbers below 100 and leaves longer ones alone. */
  lemma Pad2Digits(n: nat)
    ensures var r := JsString.PadStart(JsString.DecimalString(n), 2, '0');
      && (n < 100 ==> |r| == 2 && JsString.IsDigit(r[0]) && JsString.IsDigit(r[1]) && JsString.DecimalValue(r) == n)
      && (n >= 100 ==> r == JsString.DecimalString(n))
  {
    var digits := JsString.DecimalString(n);
    var r := JsString.PadStart(digits, 2, '0');
    LongDecimal(n);
    if n < 10 {
      assert r == ['0'] + digits;
      assert r[..1] == ['0'];
    }
  }

  /** Numbers from 10 on have at least two digits, and from 100 on at least three. */
  lemma {:induction false} LongDecimal(n: nat)
    ensures n >= 10 ==> |JsString.DecimalString(n)| >= 2
    ensures n >= 100 ==> |JsString.DecimalString(n)| >= 3
    ensures n < 100 ==> |JsString.DecimalString(n)| <= 2
  {
    if n >= 10 {
      LongDecimal(n / 10);
    }
  }

  /**
   * `createTimestamp` on the given local date: year, then 1-based month, day, hours and
   * minutes, each zero-padded to two digits, as "yyyy-mm-dd_hh-mm".
   */
  function CreateTimestamp(year: nat, monthIndex: nat, day: nat, hours: nat, minutes: nat): (r: string)
    requires monthIndex < 12 && day <= 31 && hours < 24 && minutes < 60
    ensures var y := |JsString.DecimalString(year)|;
      && |r| == y + 12
      && r[..y] == JsString.DecimalString(year)
      && r[y] == '-' && r[y + 3] == '-' && r[y + 6] == '_' && r[y + 9] == '-'
      && r[y + 1..y + 3] == Pad2(monthIndex + 1) && r[y + 4..y + 6] == Pad2(day)
      && r[y + 7..y + 9] == Pad2(hours) && r[y + 10..] == Pad2(minutes)
  {
    var yearText := JsString.DecimalString(year);
    TimestampLayout(yearText, Pad2(monthIndex + 1), Pad2(day), Pad2(hours), Pad2(minutes));
    yearText + "-" + Pad2(monthIndex + 1) + "-" + Pad2(day) + "_" + Pad2(hours) + "-" + Pad2(minutes)
  }

  /** Where the fields of "yyyy-mm-dd_hh-mm" sit when each two-digit field has two characters. */
  lemma TimestampLayout(yearText: string, month: string, day: string, hours: string, minutes: string)
    requires |month| == 2 && |day| == 2 && |hours| == 2 && |minutes| == 2
    ensures var r := yearText + "-" + month + "-" + day + "_" + hours + "-" + minutes;
      var y := |yearText|;
      && |r| == y + 12
      && r[..y] == yearText
      && r[y] == '-' && r[y + 3] == '-' && r[y + 6] == '_' && r[y + 9] == '-'
      && r[y + 1..y + 3] == month && r[y + 4..y + 6] == day
      && r[y + 7..y + 9] == hours && r[y + 10..] == minutes
  {
    var r := yearText + "-" + month + "-" + day + "_" + hours + "-" + minutes;
    var y := |yearText|;
    assert r[..y] == yearText;
    assert r[y + 1..y + 3] == month;
    assert r[y + 4..y + 6] == day;
    assert r[y + 7..y + 9] == hours;
    assert r[y + 10..] == minutes;
  }

  /** `createFileName`: the timestamp, '_', the sanitised name, '.', the extension. */
  function CreateFileName(timestamp: string, objectName: string, extension: string): (r: string)
    ensures |r| == |timestamp| + 1 + |SanitizedName(objectName)| + 1 + |extension|
    ensures r[..|timestamp|] == timestamp && r[|timestamp|] == '_'
    ensures r[|timestamp| + 1..|r| - |extension| - 1] == SanitizedName(objectName)
    ensures r[|r| - |extension| - 1] == '.' && r[|r| - |extension|..] == extension
  {
    FileNameLayout(timestamp, SanitizedName(objectName), extension);
    timestamp + "_" + SanitizedName(objectName) + "." + extension
  }

  /** Where the parts of "<timestamp>_<stem>.<extension>" sit. */
  lemma FileNameLayout(timestamp: string, stem: string, extension: string)
    ensures var r := timestamp + "_" + stem + "." + extension;
      && |r| == |timestamp| + 1 + |stem| + 1 + |extension|
      && r[..|timestamp|] == timestamp && r[|timestamp|] == '_'
      && r[|timestamp| + 1..|r| - |extension| - 1] == stem
      && r[|r| - |extension| - 1] == '.' && r[|r| - |extension|..] == extension
  {
    var r := timestamp + "_" + stem + "." + extension;
    assert r[..|timestamp|] == timestamp;
    assert r[|timestamp| + 1..|r| - |extension| - 1] == stem;
    assert r[|r| - |extension|..] == extension;
  }

  /** The stem holds no '.', '_' or unsafe character it did not get from the name, so it never holds a '/'. */
  lemma FileNameHasNoPathSeparator(timestamp: string, objectName: string, extension: string)
    requires '/' !in timestamp && '/' !in extension
    ensures '/' !in CreateFileName(timestamp, objectName, extension)
  {
    var r := CreateFileName(timestamp, objectName, extension);
    var stem := SanitizedName(objectName);
    assert r == timestamp + "_" + stem + "." + extension;
    assert '/' !in stem by {
      forall i | 0 <= i < |stem| ensures stem[i] != '/' {
        assert !IsUnsafe(stem[i]);
      }
    }
  }
}
