/** The calibration key of a channel and the parsing of a stored calibration:
    the string logic of PrefUtils over a preference store. */
module PrefUtils {
  import opened Wrappers

  const CalibrationsPrefix := "CALIBRATIONS-"
  /** The preference key under which the current channel configuration is kept. */
  const ChannelPref := "channel"

  /** The limits java.util.prefs puts on the length of a key and of a value. */
  const MaxKeyLength := 80
  const MaxValueLength := 8192

  /** The imaging channel the host reports: the channel group and its current
      configuration. */
  datatype Channel = Channel(group: string, config: string)

  /** The key under which the calibration of a channel is stored. */
  function CalibrationKey(ch: Channel): (key: string)
    ensures |key| == |CalibrationsPrefix| + |ch.group| + 1 + |ch.config|
    ensures key[..|CalibrationsPrefix|] == CalibrationsPrefix
  {
    CalibrationsPrefix + ch.group + "-" + ch.config
  }

  /** A string with no dash in it. */
  predicate NoDash(s: string)
  {
    forall j :: 0 <= j < |s| ==> s[j] != '-'
  }

  /** The character of a key just after the prefix and j characters of group. */
  lemma KeyAt(ch: Channel, j: nat)
    ensures j < |ch.group| ==> CalibrationKey(ch)[|CalibrationsPrefix| + j] == ch.group[j]
    ensures j == |ch.group| ==> CalibrationKey(ch)[|CalibrationsPrefix| + j] == '-'
  {
  }

  /** The first dash after the prefix separates group and configuration, so
      channels whose groups have no dash get different keys. */
  lemma CalibrationKeyInjective(ch1: Channel, ch2: Channel)
    requires NoDash(ch1.group) && NoDash(ch2.group)
    requires CalibrationKey(ch1) == CalibrationKey(ch2)
    ensures ch1 == ch2
  {
    var p := |CalibrationsPrefix|;
    var k1, k2 := CalibrationKey(ch1), CalibrationKey(ch2);
    var g := |ch1.group|;
    if |ch1.group| < |ch2.group| {
      KeyAt(ch1, g);
      KeyAt(ch2, g);
      assert false;
    } else if |ch2.group| < |ch1.group| {
      KeyAt(ch2, |ch2.group|);
      KeyAt(ch1, |ch2.group|);
      assert false;
    }
    assert ch1.group == k1[p..p + g] == k2[p..p + g] == ch2.group;
    assert ch1.config == k1[p + g + 1..] == k2[p + g + 1..] == ch2.config;
  }

  /** The preference store: a map from keys to string values. */
  class Preferences {
    var entries: map<string, string>

    constructor ()
      ensures entries == map[]
    {
      entries := map[];
    }

    /** The value under key, or def when there is none. */
    function Get(key: string, def: string): (v: string)
      reads this
      ensures key in entries ==> v == entries[key]
      ensures key !in entries ==> v == def
    {
      if key in entries then entries[key] else def
    }

    /** Stores value under key; a key or value over the length limits makes
        the store throw, which ok == false stands for. */
    method Put(key: string, value: string) returns (ok: bool)
      modifies this
      ensures ok <==> |key| <= MaxKeyLength && |value| <= MaxValueLength
      ensures entries == if ok then old(entries)[key := value] else old(entries)
    {
      ok := |key| <= MaxKeyLength && |value| <= MaxValueLength;
      if ok {
        entries := entries[key := value];
      }
    }
  }

  /** channelCoeffKey: the calibration key of the host's current channel, after
      the configuration is stored under "channel". A failing host query (None)
      or a failing store gives the bare prefix. */
  method ChannelCoeffKey(prefs: Preferences, host: Option<Channel>) returns (key: string)
    modifies prefs
    ensures host.None? ==> key == CalibrationsPrefix && prefs.entries == old(prefs.entries)
    ensures host.Some? && |host.value.config| <= MaxValueLength ==>
              key == CalibrationKey(host.value) &&
              prefs.entries == old(prefs.entries)[ChannelPref := host.value.config]
    ensures host.Some? && |host.value.config| > MaxValueLength ==>
              key == CalibrationsPrefix && prefs.entries == old(prefs.entries)
  {
    match host
    case None =>
      key := CalibrationsPrefix;
    case Some(ch) =>
      key := CalibrationKey(ch);
      var ok := prefs.Put(ChannelPref, ch.config);
      if !ok {
        key := CalibrationsPrefix;
      }
  }

  /** The fields of s between single spaces, empty ones included. */
  function Fields(s: string): (r: seq<string>)
    ensures |r| >= 1
  {
    if s == [] then [""]
    else
      var rest := Fields(s[1..]);
      if s[0] == ' ' then [""] + rest
      else [[s[0]] + rest[0]] + rest[1..]
  }

  /** The fields put back together with single spaces. */
  function JoinFields(fs: seq<string>): string
    requires |fs| >= 1
  {
    if |fs| == 1 then fs[0] else fs[0] + " " + JoinFields(fs[1..])
  }

  predicate NoSpace(s: string)
  {
    forall j :: 0 <= j < |s| ==> s[j] != ' '
  }

  lemma {:induction false} FieldsNoSpace(s: string)
    requires NoSpace(s)
    ensures Fields(s) == [s]
  {
    if s != [] {
      FieldsNoSpace(s[1..]);
      assert [s[0]] + s[1..] == s;
    }
  }

  /** Joining the fields of s gives s back. */
  lemma {:induction false} JoinFieldsOfFields(s: string)
    ensures JoinFields(Fields(s)) == s
  {
    if s != [] {
      var rest := Fields(s[1..]);
      JoinFieldsOfFields(s[1..]);
      if s[0] == ' ' {
        assert ([""] + rest)[1..] == rest;
      } else {
        var fs := [[s[0]] + rest[0]] + rest[1..];
        if |rest| == 1 {
          assert [s[0]] + s[1..] == s;
        } else {
          assert fs[1..] == rest[1..];
          assert JoinFields(rest) == rest[0] + " " + JoinFields(rest[1..]);
          assert JoinFields(fs) == [s[0]] + rest[0] + " " + JoinFields(rest[1..]);
          assert [s[0]] + s[1..] == s;
        }
      }
    }
  }

  /** The fields of a character before s. */
  lemma FieldsCons(c: char, s: string)
    ensures Fields([c] + s) ==
              if c == ' ' then [""] + Fields(s) else [[c] + Fields(s)[0]] + Fields(s)[1..]
  {
    assert ([c] + s)[1..] == s;
  }

  /** The fields of a joined list of space-free fields are that list. */
  lemma {:induction false} FieldsOfJoinFields(fs: seq<string>)
    requires |fs| >= 1
    requires forall i :: 0 <= i < |fs| ==> NoSpace(fs[i])
    ensures Fields(JoinFields(fs)) == fs
  {
    if |fs| == 1 {
      FieldsNoSpace(fs[0]);
    } else {
      FieldsOfJoinFields(fs[1..]);
      FieldsHead(fs[0], JoinFields(fs[1..]));
      assert [""] + fs[1..] == [""] + Fields(JoinFields(fs[1..]));
      assert fs == [fs[0]] + fs[1..];
    }
  }

  /** A space-free word followed by a space and t: the word is the first field
      and the fields of t follow. */
  lemma {:induction false} FieldsHead(w: string, t: string)
    requires NoSpace(w)
    ensures Fields(w + " " + t) == [w] + Fields(t)
  {
    if w == [] {
      assert w + " " + t == [' '] + t;
      FieldsCons(' ', t);
    } else {
      FieldsHead(w[1..], t);
      assert w + " " + t == [w[0]] + (w[1..] + " " + t);
      FieldsCons(w[0], w[1..] + " " + t);
      assert [w[0]] + w[1..] == w;
    }
  }

  /** The list with its trailing empty strings removed. */
  function DropTrailingEmpty(fs: seq<string>): (r: seq<string>)
    ensures |r| <= |fs| && r == fs[..|r|]
    ensures forall i :: |r| <= i < |fs| ==> fs[i] == ""
    ensures r == [] || r[|r| - 1] != ""
  {
    if fs == [] then []
    else if fs[|fs| - 1] == "" then DropTrailingEmpty(fs[..|fs| - 1])
    else fs
  }

  /** Java's String.split(" "): the whole string when there is no space in it;
      otherwise its fields with the trailing empty ones removed. */
  function JavaSplit(s: string): (r: seq<string>)
    ensures NoSpace(s) ==> r == [s]
    ensures !NoSpace(s) ==> |r| <= |Fields(s)| && r == Fields(s)[..|r|] && (r == [] || r[|r| - 1] != "")
    ensures !NoSpace(s) ==> forall i :: |r| <= i < |Fields(s)| ==> Fields(s)[i] == ""
  {
    if NoSpace(s) then [s] else DropTrailingEmpty(Fields(s))
  }

  /** Splitting a joined list of space-free fields whose last field is not
      empty gives the list back. */
  lemma JavaSplitOfJoin(fs: seq<string>)
    requires |fs| >= 1 && fs[|fs| - 1] != ""
    requires forall i :: 0 <= i < |fs| ==> NoSpace(fs[i])
    ensures JavaSplit(JoinFields(fs)) == fs
  {
    FieldsOfJoinFields(fs);
    if NoSpace(JoinFields(fs)) {
      FieldsNoSpace(JoinFields(fs));
    }
  }

  /** The characters the calibration parser removes. */
  predicate IsBracket(c: char)
  {
    c == '[' || c == ',' || c == ']'
  }

  predicate NoBracket(s: string)
  {
    forall j :: 0 <= j < |s| ==> !IsBracket(s[j])
  }

  /** s with every '[', ',' and ']' removed (replaceAll("\\[|\\,|\\]", "")). */
  function StripBrackets(s: string): (r: string)
    ensures NoBracket(r)
    ensures |r| <= |s|
  {
    if s == [] then []
    else if IsBracket(s[0]) then StripBrackets(s[1..])
    else [s[0]] + StripBrackets(s[1..])
  }

  lemma {:induction false} StripAppend(a: string, b: string)
    ensures StripBrackets(a + b) == StripBrackets(a) + StripBrackets(b)
  {
    if a == [] {
      assert a + b == b;
    } else {
      var ab := a + b;
      assert ab[0] == a[0] && ab[1..] == a[1..] + b;
      StripAppend(a[1..], b);
      if !IsBracket(a[0]) {
        assert StripBrackets(ab) == [a[0]] + (StripBrackets(a[1..]) + StripBrackets(b));
      }
    }
  }

  /** A string without those characters is left as it is. */
  lemma {:induction false} StripPlain(s: string)
    requires NoBracket(s)
    ensures StripBrackets(s) == s
  {
    if s != [] {
      StripPlain(s[1..]);
      assert [s[0]] + s[1..] == s;
    }
  }

  /** Field index of a stored calibration string, with its brackets and commas
      removed; an index outside the fields makes Java throw, and the caught
      exception gives "". */
  function ParseCalString(index: int, calString: string): (coeff: string)
    ensures NoBracket(coeff)
    ensures !(0 <= index < |JavaSplit(calString)|) ==> coeff == ""
  {
    var parts := JavaSplit(calString);
    if 0 <= index < |parts| then StripBrackets(parts[index]) else ""
  }

  /** parseCal: the field index of the calibration stored under the current
      channel's key, or "" when no channel can be read or the field is missing. */
  function ParseCal(index: int, prefs: Preferences, host: Option<Channel>): (coeff: string)
    reads prefs
    ensures NoBracket(coeff)
    ensures host.None? ==> coeff == ""
  {
    match host
    case None => ""
    case Some(ch) => ParseCalString(index, prefs.Get(CalibrationKey(ch), ""))
  }

  /** With no calibration stored the default "" is split into one empty field,
      so every index gives "". */
  lemma {:induction false} ParseCalUnset(index: int, prefs: Preferences, ch: Channel)
    requires CalibrationKey(ch) !in prefs.entries || prefs.entries[CalibrationKey(ch)] == ""
    ensures ParseCal(index, prefs, Some(ch)) == ""
  {
    assert prefs.Get(CalibrationKey(ch), "") == "";
    assert JavaSplit("") == [""];
    assert StripBrackets("") == "";
  }

  /** The items of a list separated by ", ". */
  function CommaList(t: seq<string>): string
  {
    if |t| == 0 then "" else if |t| == 1 then t[0] else t[0] + ", " + CommaList(t[1..])
  }

  /** A list of coefficients as Java's Arrays.toString writes it: "[t0, t1, ...]". */
  function CalibrationString(t: seq<string>): string
  {
    "[" + CommaList(t) + "]"
  }

  /** A coefficient's text as it may appear in a calibration string. */
  predicate Plain(s: string)
  {
    NoSpace(s) && NoBracket(s)
  }

  /** The space-separated fields of CommaList(t) + "]": every item closed by
      its comma, the last by the bracket. */
  function Pieces(t: seq<string>): (ps: seq<string>)
    requires |t| >= 1
    ensures |ps| == |t|
  {
    if |t| == 1 then [t[0] + "]"] else [t[0] + ","] + Pieces(t[1..])
  }

  lemma {:induction false} PiecesJoin(t: seq<string>)
    requires |t| >= 1
    ensures JoinFields(Pieces(t)) == CommaList(t) + "]"
    ensures forall i :: 0 <= i < |t| ==> Pieces(t)[i] == t[i] + (if i == |t| - 1 then "]" else ",")
  {
    if |t| > 1 {
      PiecesJoin(t[1..]);
      var ps := Pieces(t);
      assert ps[1..] == Pieces(t[1..]);
      assert JoinFields(ps) == t[0] + "," + " " + JoinFields(Pieces(t[1..]));
      assert CommaList(t) + "]" == t[0] + ", " + (CommaList(t[1..]) + "]");
      forall i | 0 <= i < |t|
        ensures ps[i] == t[i] + (if i == |t| - 1 then "]" else ",")
      {
        if i > 0 {
          assert ps[i] == Pieces(t[1..])[i - 1];
        }
      }
    }
  }

  /** The fields of a string starting with a bracket: the first field gains it. */
  lemma FieldsBracket(s: string)
    ensures Fields("[" + s) == [("[" + Fields(s)[0])] + Fields(s)[1..]
  {
    FieldsCons('[', s);
  }

  /** The fields a calibration string splits into: its pieces, the first
      opened by the bracket. */
  function CalibrationFields(t: seq<string>): (fs: seq<string>)
    requires |t| >= 1
    ensures |fs| == |t|
  {
    Pieces(t)[0 := "[" + Pieces(t)[0]]
  }

  /** Every piece of a list of plain coefficients is free of spaces. */
  lemma PiecesNoSpace(t: seq<string>)
    requires |t| >= 1
    requires forall i :: 0 <= i < |t| ==> Plain(t[i])
    ensures forall i :: 0 <= i < |t| ==> NoSpace(Pieces(t)[i])
  {
    PiecesJoin(t);
    forall i | 0 <= i < |t|
      ensures NoSpace(Pieces(t)[i])
    {
      assert Pieces(t)[i] == t[i] + (if i == |t| - 1 then "]" else ",");
      assert NoSpace(t[i]);
    }
  }

  lemma FieldsOfCalibration(t: seq<string>)
    requires |t| >= 1
    requires forall i :: 0 <= i < |t| ==> Plain(t[i])
    ensures Fields(CalibrationString(t)) == CalibrationFields(t)
  {
    PiecesJoin(t);
    PiecesNoSpace(t);
    var ps := Pieces(t);
    FieldsOfJoinFields(ps);
    FieldsBracket(JoinFields(ps));
    assert CalibrationString(t) == "[" + JoinFields(ps);
  }

  lemma SplitCalibration(t: seq<string>)
    requires |t| >= 1
    requires forall i :: 0 <= i < |t| ==> Plain(t[i])
    ensures JavaSplit(CalibrationString(t)) == CalibrationFields(t)
  {
    var s := CalibrationString(t);
    var fs := CalibrationFields(t);
    FieldsOfCalibration(t);
    PiecesJoin(t);
    assert fs[|fs| - 1] != "" by {
      assert |Pieces(t)[|t| - 1]| > 0;
      assert |fs[|fs| - 1]| > 0;
    }
    if NoSpace(s) {
      FieldsNoSpace(s);
    }
  }

  /** Each field of a calibration string, stripped, is its coefficient. */
  lemma StripCalibrationField(t: seq<string>, index: nat)
    requires index < |t|
    requires Plain(t[index])
    ensures StripBrackets(CalibrationFields(t)[index]) == t[index]
  {
    PiecesJoin(t);
    var ps := Pieces(t);
    var tail := if index == |t| - 1 then "]" else ",";
    assert ps[index] == t[index] + tail;
    StripAppend(t[index], tail);
    StripPlain(t[index]);
    assert StripBrackets(tail) == "";
    if index == 0 {
      StripAppend("[", ps[0]);
      assert StripBrackets("[") == "";
    }
  }

  /** Parsing a calibration string gives back each of its coefficients, and ""
      beyond the last. */
  lemma ParseCalFormatted(t: seq<string>, index: int)
    requires forall i :: 0 <= i < |t| ==> Plain(t[i])
    ensures ParseCalString(index, CalibrationString(t)) == if 0 <= index < |t| then t[index] else ""
  {
    if |t| == 0 {
      var s := CalibrationString(t);
      assert s == "[]";
      assert NoSpace(s);
      assert JavaSplit(s) == ["[]"];
      assert StripBrackets("[]") == StripBrackets("]");
    } else {
      SplitCalibration(t);
      if 0 <= index < |t| {
        StripCalibrationField(t, index);
      }
    }
  }

  /** Storing a calibration under the key channelCoeffKey returns and reading
      it back with parseCal gives each coefficient. The store succeeds exactly
      when the configuration, the key and the calibration string are within
      the store's limits; when channelCoeffKey falls back to the bare prefix
      nothing is stored under it. */
  method StoreCalibration(prefs: Preferences, ch: Channel, t: seq<string>) returns (stored: bool)
    requires forall i :: 0 <= i < |t| ==> Plain(t[i])
    modifies prefs
    ensures stored <==> |ch.config| <= MaxValueLength && |CalibrationKey(ch)| <= MaxKeyLength &&
                        |CalibrationString(t)| <= MaxValueLength
    ensures |ch.config| <= MaxValueLength && stored ==>
              prefs.entries == old(prefs.entries)[ChannelPref := ch.config]
                                                 [CalibrationKey(ch) := CalibrationString(t)]
    ensures |ch.config| <= MaxValueLength && !stored ==>
              prefs.entries == old(prefs.entries)[ChannelPref := ch.config]
    ensures |ch.config| > MaxValueLength ==> prefs.entries == old(prefs.entries)
    ensures stored ==> forall index :: ParseCal(index, prefs, Some(ch)) ==
                                         if 0 <= index < |t| then t[index] else ""
  {
    var key := ChannelCoeffKey(prefs, Some(ch));
    if key == CalibrationsPrefix {
      return false;
    }
    stored := prefs.Put(key, CalibrationString(t));
    if stored {
      forall index
        ensures ParseCal(index, prefs, Some(ch)) == if 0 <= index < |t| then t[index] else ""
      {
        ParseCalFormatted(t, index);
      }
    }
  }
}
