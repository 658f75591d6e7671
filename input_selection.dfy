/** The MIDI-input selection rule shared by NAudioMidiInputs.SearchMidiInputId,
    MidiInputService.GetMidiInputId and the command line's GetMidiInputId.
    The device list is read from the hardware there; here it is the list of
    device names, in device order, passed as a parameter. */
module MidiInputSelection {
  import opened Wrappers
  import opened Decimal

  // ---------------------------------------------------------------------------
  // int.TryParse with NumberStyles.Integer and invariant signs

  const MinInt32: int := -0x8000_0000
  const MaxInt32: int := 0x7FFF_FFFF

  /** The white space NumberStyles.AllowLeadingWhite / AllowTrailingWhite accept:
      U+0009 to U+000D and U+0020. */
  predicate IsParseSpace(c: char)
  {
    c == ' ' || '\t' <= c <= '\r'
  }

  /** The number of white-space characters s starts with. */
  function LeadingSpaces(s: string): (n: nat)
    ensures n <= |s|
    ensures forall i :: 0 <= i < n ==> IsParseSpace(s[i])
    ensures n < |s| ==> !IsParseSpace(s[n])
  {
    if s != [] && IsParseSpace(s[0]) then 1 + LeadingSpaces(s[1..]) else 0
  }

  /** The number of white-space characters s ends with. */
  function TrailingSpaces(s: string): (n: nat)
    ensures n <= |s|
    ensures forall i :: |s| - n <= i < |s| ==> IsParseSpace(s[i])
    ensures n < |s| ==> !IsParseSpace(s[|s| - n - 1])
  {
    if s != [] && IsParseSpace(s[|s| - 1]) then 1 + TrailingSpaces(s[..|s| - 1]) else 0
  }

  /** The text between the leading and the trailing white space. */
  function Trim(s: string): (r: string)
    ensures |r| <= |s|
    ensures r != [] ==> !IsParseSpace(r[0]) && !IsParseSpace(r[|r| - 1])
  {
    var rest := s[LeadingSpaces(s)..];
    rest[..|rest| - TrailingSpaces(rest)]
  }

  /** int.TryParse: optional surrounding white space, an optional '+' or '-',
      then one or more decimal digits whose value fits in 32 bits. */
  function TryParseInt(s: string): (r: Option<int>)
    ensures r.Some? ==> MinInt32 <= r.value <= MaxInt32
  {
    var t := Trim(s);
    var signed := t != [] && (t[0] == '-' || t[0] == '+');
    var digits := if signed then t[1..] else t;
    if digits == [] || !AllDigits(digits) then None
    else
      var v: int := if signed && t[0] == '-' then -(DigitsValue(digits) as int) else DigitsValue(digits);
      if MinInt32 <= v <= MaxInt32 then Some(v) else None
  }

  /** Digit strings are not trimmed. */
  lemma TrimDigits(s: string)
    requires s != [] && AllDigits(s)
    ensures Trim(s) == s
  {
    assert LeadingSpaces(s) == 0;
    assert s[0..] == s;
    assert TrailingSpaces(s) == 0;
  }

  /** The decimal text of a 32-bit index parses back to that index. */
  lemma TryParseIntRoundTrip(n: nat)
    requires n <= MaxInt32
    ensures TryParseInt(NatToString(n)) == Some(n)
  {
    var s := NatToString(n);
    TrimDigits(s);
    assert !(s[0] == '-' || s[0] == '+');
    NatToStringRoundTrip(n);
  }

  /** A minus sign followed by digits is not trimmed. */
  lemma TrimSignedDigits(s: string)
    requires |s| >= 2 && s[0] == '-' && AllDigits(s[1..])
    ensures Trim(s) == s
  {
    assert LeadingSpaces(s) == 0 && s[0..] == s;
    assert s[|s| - 1] == s[1..][|s| - 2];
    assert TrailingSpaces(s) == 0 && s[..|s|] == s;
  }

  /** A sign counts once: "-" followed by the digits of n parses to -n. */
  lemma TryParseIntNegative(n: nat)
    requires n <= MaxInt32
    ensures TryParseInt("-" + NatToString(n)) == Some(-(n as int))
  {
    var s := "-" + NatToString(n);
    assert s[1..] == NatToString(n);
    TrimSignedDigits(s);
    NatToStringRoundTrip(n);
  }

  predicate IsAsciiLetter(c: char)
  {
    'a' <= c <= 'z' || 'A' <= c <= 'Z'
  }

  /** An optional sign followed by digits holds no letter. */
  lemma SignedDigitsHaveNoLetters(t: string, j: nat)
    requires j < |t|
    requires var signed := t != [] && (t[0] == '-' || t[0] == '+');
             AllDigits(if signed then t[1..] else t)
    ensures !IsAsciiLetter(t[j])
  {
    if t[0] == '-' || t[0] == '+' {
      if j > 0 {
        assert t[j] == t[1..][j - 1];
      }
    }
  }

  /** Text that parses as an integer holds no letter anywhere. */
  lemma ParsedTextHasNoLetters(s: string, i: nat)
    requires TryParseInt(s).Some? && i < |s|
    ensures !IsAsciiLetter(s[i])
  {
    TrimmedDigitsHaveNoLetters(s, i);
  }

  /** Signed digits surrounded by white space hold no letter. */
  lemma TrimmedDigitsHaveNoLetters(s: string, i: nat)
    requires i < |s|
    requires var t := Trim(s);
             var signed := t != [] && (t[0] == '-' || t[0] == '+');
             AllDigits(if signed then t[1..] else t)
    ensures !IsAsciiLetter(s[i])
  {
    var lead := LeadingSpaces(s);
    var rest := s[lead..];
    var trail := TrailingSpaces(rest);
    var t := Trim(s);
    assert t == rest[..|rest| - trail];
    if lead <= i {
      assert s[i] == rest[i - lead];
      if i - lead < |rest| - trail {
        assert s[i] == t[i - lead];
        SignedDigitsHaveNoLetters(t, i - lead);
      }
    }
  }

  // ---------------------------------------------------------------------------
  // StringComparison.OrdinalIgnoreCase

  function ToUpperAscii(c: char): (r: char)
    ensures IsAsciiLetter(c) <==> IsAsciiLetter(r)
    ensures !IsAsciiLetter(c) ==> r == c
  {
    if 'a' <= c <= 'z' then (c as int - 32) as char else c
  }

  /** Equal length, and equal characters once ASCII letters are upper-cased. */
  predicate EqualsIgnoreCase(a: string, b: string)
  {
    |a| == |b| && forall i :: 0 <= i < |a| ==> ToUpperAscii(a[i]) == ToUpperAscii(b[i])
  }

  /** OrdinalIgnoreCase equality is an equivalence that only ever identifies
      an upper-case ASCII letter with its lower-case partner. */
  lemma EqualsIgnoreCaseIsEquivalence(a: string, b: string, c: string)
    ensures EqualsIgnoreCase(a, a)
    ensures EqualsIgnoreCase(a, b) ==> EqualsIgnoreCase(b, a)
    ensures EqualsIgnoreCase(a, b) && EqualsIgnoreCase(b, c) ==> EqualsIgnoreCase(a, c)
    ensures EqualsIgnoreCase(a, b) ==> forall i :: 0 <= i < |a| && !IsAsciiLetter(a[i]) ==> a[i] == b[i]
  {
  }

  /** The index of the first device whose name equals `name`, ignoring case
      (Select((port, idx) => ...).FirstOrDefault(...)?.idx). */
  function FirstMatch(names: seq<string>, name: string): (r: Option<nat>)
    ensures r.Some? ==> r.value < |names| && EqualsIgnoreCase(names[r.value], name)
    ensures r.Some? ==> forall j :: 0 <= j < r.value ==> !EqualsIgnoreCase(names[j], name)
    ensures r.None? <==> forall j :: 0 <= j < |names| ==> !EqualsIgnoreCase(names[j], name)
  {
    if names == [] then None
    else if EqualsIgnoreCase(names[0], name) then Some(0)
    else match FirstMatch(names[1..], name)
      case None => None
      case Some(i) => Some(i + 1)
  }

  // ---------------------------------------------------------------------------
  // The selection rule

  /** The device the name designates by number: an integer in [0, count). */
  function IndexByNumber(name: string, count: nat): (r: Option<nat>)
    ensures r.Some? ==> r.value < count && TryParseInt(name) == Some(r.value as int)
  {
    match TryParseInt(name)
    case Some(s) => if 0 <= s < count then Some(s as nat) else None
    case None => None
  }

  /** Every device index, in device order. */
  function AllIndices(count: nat): (r: seq<nat>)
    ensures |r| == count && forall i :: 0 <= i < count ==> r[i] == i
  {
    seq(count, i requires 0 <= i => i as nat)
  }

  /** The indices GetMidiInputId yields for one requested name: none without
      devices; all of them for "*"; otherwise the index the name gives as a
      number when it is a device index, else the first device whose name
      matches ignoring case, else none. */
  function SelectInput(names: seq<string>, name: string): (r: seq<nat>)
    ensures forall k :: 0 <= k < |r| ==> r[k] < |names|
  {
    if |names| == 0 then []
    else if name == "*" then AllIndices(|names|)
    else
      var selected := if IndexByNumber(name, |names|).Some? then IndexByNumber(name, |names|) else FirstMatch(names, name);
      match selected
      case None => []
      case Some(i) => [i]
  }

  /** Without devices nothing is selected, whatever the name. */
  lemma NoDevicesNoInputs(name: string)
    ensures SelectInput([], name) == []
    ensures forall names: seq<string> :: SelectInput(names, name) == [] <==>
              (names == [] || (name != "*" && IndexByNumber(name, |names|).None? && FirstMatch(names, name).None?))
  {
  }

  /** "*" selects every device, in device order, and nothing twice. */
  lemma StarSelectsAll(names: seq<string>)
    requires names != []
    ensures var r := SelectInput(names, "*");
            |r| == |names| && (forall i :: 0 <= i < |names| ==> r[i] == i)
  {
  }

  /** A number naming a device index selects exactly that device, even when
      another device is called by that number. */
  lemma NumberSelectsIndex(names: seq<string>, n: nat)
    requires n < |names| && n <= MaxInt32
    ensures SelectInput(names, NatToString(n)) == [n]
  {
    TryParseIntRoundTrip(n);
    assert NatToString(n) != "*" by {
      assert IsDigit(NatToString(n)[0]);
    }
  }

  /** Any other name (a non-number, or a number outside [0, count)) selects
      the first device whose name matches ignoring case, or nothing. */
  lemma OtherwiseFirstNameMatch(names: seq<string>, name: string)
    requires names != [] && name != "*" && IndexByNumber(name, |names|).None?
    ensures forall i: nat :: SelectInput(names, name) == [i] <==>
              (i < |names| && EqualsIgnoreCase(names[i], name) &&
               forall j :: 0 <= j < i ==> !EqualsIgnoreCase(names[j], name))
    ensures SelectInput(names, name) == [] <==> forall j :: 0 <= j < |names| ==> !EqualsIgnoreCase(names[j], name)
  {
  }

  /** Apart from "*", at most one device is selected, and it is one the name
      designates by number or by name. */
  lemma AtMostOneUnlessStar(names: seq<string>, name: string)
    requires name != "*"
    ensures |SelectInput(names, name)| <= 1
    ensures forall i :: i in SelectInput(names, name) ==>
              TryParseInt(name) == Some(i as int) || EqualsIgnoreCase(names[i], name)
  {
  }

  /** Text that parses as an integer only matches itself, ignoring case. */
  lemma ParsedTextMatchesOnlyItself(a: string, b: string)
    requires EqualsIgnoreCase(a, b) && TryParseInt(a).Some?
    ensures a == b
  {
    forall i | 0 <= i < |a| ensures a[i] == b[i] {
      ParsedTextHasNoLetters(a, i);
    }
  }

  /** The numeric reading of a name does not depend on letter case. */
  lemma TryParseIntIgnoresCase(a: string, b: string)
    requires EqualsIgnoreCase(a, b)
    ensures TryParseInt(a) == TryParseInt(b)
  {
    if TryParseInt(a).Some? {
      ParsedTextMatchesOnlyItself(a, b);
    } else if TryParseInt(b).Some? {
      EqualsIgnoreCaseIsEquivalence(a, b, a);
      ParsedTextMatchesOnlyItself(b, a);
    }
  }

  /** Names equal ignoring case match the same devices first. */
  lemma {:induction false} FirstMatchIgnoresCase(names: seq<string>, a: string, b: string)
    requires EqualsIgnoreCase(a, b)
    ensures FirstMatch(names, a) == FirstMatch(names, b)
  {
    if names != [] {
      EqualsIgnoreCaseIsEquivalence(names[0], a, b);
      EqualsIgnoreCaseIsEquivalence(names[0], b, a);
      EqualsIgnoreCaseIsEquivalence(a, b, b);
      FirstMatchIgnoresCase(names[1..], a, b);
    }
  }

  /** Two names that differ only in the case of ASCII letters select the
      same devices. */
  lemma SelectionIgnoresCase(names: seq<string>, a: string, b: string)
    requires EqualsIgnoreCase(a, b)
    ensures SelectInput(names, a) == SelectInput(names, b)
  {
    TryParseIntIgnoresCase(a, b);
    FirstMatchIgnoresCase(names, a, b);
    assert a == "*" <==> b == "*" by {
      if a == "*" {
        assert !IsAsciiLetter(a[0]);
      }
      if b == "*" {
        assert ToUpperAscii(a[0]) == '*';
      }
    }
  }

  // ---------------------------------------------------------------------------
  // NAudioMidiInputs.SearchMidiInputId

  /** The selected devices as (index, name) pairs. */
  function SearchMidiInputId(names: seq<string>, name: string): (r: seq<(int, string)>)
    ensures |r| == |SelectInput(names, name)|
    ensures forall k :: 0 <= k < |r| ==> 0 <= r[k].0 < |names| && r[k].1 == names[r[k].0]
  {
    var ids := SelectInput(names, name);
    seq(|ids|, k requires 0 <= k < |ids| => (ids[k] as int, names[ids[k]]))
  }

  /** The pairs carry exactly the indices the selection rule picks. */
  lemma SearchPairsFollowSelection(names: seq<string>, name: string)
    ensures forall k :: 0 <= k < |SearchMidiInputId(names, name)| ==>
              SearchMidiInputId(names, name)[k].0 == SelectInput(names, name)[k] as int
  {
  }

  /** "*" lists every device with its name, in device order. */
  lemma SearchStarListsEveryDevice(names: seq<string>)
    requires names != []
    ensures SearchMidiInputId(names, "*") == seq(|names|, i requires 0 <= i < |names| => (i, names[i]))
  {
  }

  /** The decimal text of a device index lists that one device. */
  lemma SearchNumberListsThatDevice(names: seq<string>, n: nat)
    requires n < |names| && n <= MaxInt32
    ensures SearchMidiInputId(names, NatToString(n)) == [(n, names[n])]
  {
    NumberSelectsIndex(names, n);
  }

  /** A name with a letter in it is never read as a number. */
  lemma LetterMeansName(s: string, i: nat)
    requires i < |s| && IsAsciiLetter(s[i])
    ensures TryParseInt(s).None?
  {
    if TryParseInt(s).Some? {
      ParsedTextHasNoLetters(s, i);
    }
  }

  /** The devices of the command line's usage text: "1" is a device index
      and selects the second device. */
  lemma UsageExampleByNumber(names: seq<string>)
    requires names == ["Korg M1", "Impulse"]
    ensures SelectInput(names, "1") == [1]
  {
    NumberSelectsIndex(names, 1);
    assert NatToString(1) == "1";
  }

  /** "Korg M1" and "impulse" differ in their first letter. */
  lemma KorgIsNotImpulse(a: string, b: string)
    requires a == "Korg M1" && b == "impulse"
    ensures !EqualsIgnoreCase(a, b)
  {
    assert ToUpperAscii(a[0]) == 'K' && ToUpperAscii(b[0]) == 'I';
  }

  /** "Impulse" and "impulse" differ only in the case of their first letter. */
  lemma ImpulseIsImpulse(a: string, b: string)
    requires a == "Impulse" && b == "impulse"
    ensures EqualsIgnoreCase(a, b)
  {
    forall i | 0 <= i < 7 ensures ToUpperAscii(a[i]) == ToUpperAscii(b[i]) {
    }
  }

  /** "impulse" names the second device, ignoring case. */
  lemma UsageExampleByName(names: seq<string>)
    requires names == ["Korg M1", "Impulse"]
    ensures SearchMidiInputId(names, "impulse") == [(1, "Impulse")]
  {
    var name := "impulse";
    LetterMeansName(name, 0);
    assert name != "*";
    KorgIsNotImpulse(names[0], name);
    ImpulseIsImpulse(names[1], name);
    assert FirstMatch(names, name) == Some(1);
    assert SelectInput(names, name) == [1];
  }

  /** "5" is a number but not a device index, and no device is called "5":
      nothing is selected. */
  lemma UsageExampleUnknown(names: seq<string>)
    requires names == ["Korg M1", "Impulse"]
    ensures SelectInput(names, "5") == []
  {
    TryParseIntRoundTrip(5);
    assert NatToString(5) == "5";
    assert !EqualsIgnoreCase(names[0], "5") && !EqualsIgnoreCase(names[1], "5");
    assert FirstMatch(names, "5") == None;
  }
}
