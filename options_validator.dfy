/** OptionsValidator.Validate (command line): turns the raw record options
    into TypedRecordOptions, resolving the requested MIDI inputs with a search
    function and checking the path format with a test function, both passed in. */
module CommandLineOptionsValidator {
  import opened Wrappers
  import opened TrackGrouping
  import MidiInputSelection
  import Decimal

  /** The options the validator reads. DelayToSave is in milliseconds. */
  datatype RecordOptions = RecordOptions(midiInputs: seq<string>, delayToSave: int, pathFormatString: string, midiResolution: int)

  /** The validated options; both TimeSpans are kept as milliseconds. */
  datatype TypedRecordOptions = TypedRecordOptions(
    delayToSaveMs: int,
    timeoutToSaveMs: int,
    pathFormatString: string,
    midiResolution: int,
    midiInputs: seq<(int, string)>)

  /** The fixed timeout after which held notes no longer delay saving. */
  const TimeoutToSaveMs: int := 30000

  /** Enumerable.SelectMany: the results for each element, one after another. */
  function SelectMany<A, B(==,!new)>(xs: seq<A>, f: A -> seq<B>): (r: seq<B>)
    ensures forall y :: y in r <==> exists i :: 0 <= i < |xs| && y in f(xs[i])
    ensures r == [] <==> forall i :: 0 <= i < |xs| ==> f(xs[i]) == []
  {
    if xs == [] then []
    else
      var rest := SelectMany(xs[1..], f);
      assert forall i :: 0 < i < |xs| ==> xs[1..][i - 1] == xs[i];
      f(xs[0]) + rest
  }

  function Identity<T>(x: T): T
  {
    x
  }

  /** Distinct: the first occurrence of each value, in order of appearance. */
  function Dedup<T(==,!new)>(s: seq<T>): (r: seq<T>)
    ensures NoDuplicates(r)
    ensures forall x :: x in r <==> x in s
    ensures |r| <= |s|
  {
    DistinctKeys(s, Identity)
  }

  /** A sequence without repeats is its own Distinct. */
  lemma {:induction false} DedupOfDistinct<T(!new)>(s: seq<T>)
    requires NoDuplicates(s)
    ensures Dedup(s) == s
  {
    if s != [] {
      var front := s[..|s| - 1];
      assert NoDuplicates(front) by {
        forall i, j | 0 <= i < j < |front| ensures front[i] != front[j] {
          assert front[i] == s[i] && front[j] == s[j];
        }
      }
      DedupOfDistinct(front);
      assert s[|s| - 1] !in front;
      assert front + [s[|s| - 1]] == s;
    }
  }

  /** Over two names, the concatenation of the two results. */
  lemma SelectManyPair<A, B(!new)>(xs: seq<A>, f: A -> seq<B>)
    requires |xs| == 2
    ensures SelectMany(xs, f) == f(xs[0]) + f(xs[1])
  {
    assert xs[1..][1..] == [];
    assert f(xs[1]) + [] == f(xs[1]);
  }

  /** Appending a value already present changes nothing. */
  lemma DedupRepeat<T(!new)>(s: seq<T>, x: T)
    requires x in s
    ensures Dedup(s + [x]) == Dedup(s)
  {
    assert (s + [x])[..|s + [x]| - 1] == s;
  }

  /** string.Join: the parts with the separator between each two. */
  function Join(separator: string, parts: seq<string>): (r: string)
    ensures parts == [] ==> r == []
    ensures |parts| == 1 ==> r == parts[0]
    ensures |parts| >= 1 ==> |r| == JoinedLength(parts) + (|parts| - 1) * |separator|
  {
    if parts == [] then ""
    else if |parts| == 1 then parts[0]
    else parts[0] + separator + Join(separator, parts[1..])
  }

  function JoinedLength(parts: seq<string>): nat
  {
    if parts == [] then 0 else |parts[0]| + JoinedLength(parts[1..])
  }

  /** The error for requested inputs of which none could be found. */
  function NoInputsMessage(names: seq<string>): string
  {
    "No MIDI inputs for '" + Join(", ", names) + "' could be located"
  }

  /** The inputs every requested name resolves to, concatenated and then
      de-duplicated. */
  function ResolveInputs<T(==,!new)>(names: seq<string>, search: string -> seq<T>): (r: seq<T>)
    ensures NoDuplicates(r)
    ensures forall x :: x in r <==> exists i :: 0 <= i < |names| && x in search(names[i])
  {
    Dedup(SelectMany(names, search))
  }

  /** Validate: with no resolved input, the no-inputs error; otherwise the
      format test's errors, or the typed options. Errors are a sequence, as
      in a LanguageExt Validation. */
  function Validate(options: RecordOptions, search: string -> seq<(int, string)>,
                    testFormat: string -> Result<(), seq<string>>): (r: Result<TypedRecordOptions, seq<string>>)
  {
    var inputIds := ResolveInputs(options.midiInputs, search);
    if inputIds == [] then Failure([NoInputsMessage(options.midiInputs)])
    else match testFormat(options.pathFormatString)
      case Failure(errors) => Failure(errors)
      case Success(_) =>
        Success(TypedRecordOptions(options.delayToSave, TimeoutToSaveMs, options.pathFormatString,
                                   options.midiResolution, inputIds))
  }

  /** When no requested name resolves, the result is the no-inputs error,
      whatever the format test would say: it is never consulted. */
  lemma NoInputsIsAnError(options: RecordOptions, search: string -> seq<(int, string)>,
                          testFormat: string -> Result<(), seq<string>>, otherTest: string -> Result<(), seq<string>>)
    requires forall i :: 0 <= i < |options.midiInputs| ==> search(options.midiInputs[i]) == []
    ensures Validate(options, search, testFormat) == Failure([NoInputsMessage(options.midiInputs)])
    ensures Validate(options, search, testFormat) == Validate(options, search, otherTest)
  {
  }

  /** When some input resolves, a failing format test's errors are returned
      unchanged. */
  lemma FormatErrorsPassThrough(options: RecordOptions, search: string -> seq<(int, string)>,
                                testFormat: string -> Result<(), seq<string>>)
    requires exists i :: 0 <= i < |options.midiInputs| && search(options.midiInputs[i]) != []
    requires testFormat(options.pathFormatString).Failure?
    ensures Validate(options, search, testFormat) == Failure(testFormat(options.pathFormatString).error)
  {
    var i :| 0 <= i < |options.midiInputs| && search(options.midiInputs[i]) != [];
    assert search(options.midiInputs[i])[0] in ResolveInputs(options.midiInputs, search);
  }

  /** Validation succeeds exactly when some input resolves and the format
      passes its test; the typed options then carry the delay in
      milliseconds, the fixed 30000 ms timeout, the path format and the
      resolution unchanged, and every resolved input exactly once. */
  lemma ValidOptions(options: RecordOptions, search: string -> seq<(int, string)>,
                     testFormat: string -> Result<(), seq<string>>)
    ensures Validate(options, search, testFormat).Success? <==>
              (exists i :: 0 <= i < |options.midiInputs| && search(options.midiInputs[i]) != []) &&
              testFormat(options.pathFormatString).Success?
    ensures Validate(options, search, testFormat).Success? ==>
              var typed := Validate(options, search, testFormat).value;
              && typed.delayToSaveMs == options.delayToSave
              && typed.timeoutToSaveMs == 30000
              && typed.pathFormatString == options.pathFormatString
              && typed.midiResolution == options.midiResolution
              && NoDuplicates(typed.midiInputs)
              && (forall x :: x in typed.midiInputs <==>
                    exists i :: 0 <= i < |options.midiInputs| && x in search(options.midiInputs[i]))
  {
    var ids := ResolveInputs(options.midiInputs, search);
    if exists i :: 0 <= i < |options.midiInputs| && search(options.midiInputs[i]) != [] {
      var i :| 0 <= i < |options.midiInputs| && search(options.midiInputs[i]) != [];
      assert search(options.midiInputs[i])[0] in ids;
    }
  }

  /** With the device search of NAudioMidiInputs, asking for "*" and for "0"
      lists every device once: the second request's device is dropped as a
      repeat. */
  lemma StarAndIndexListEachDeviceOnce(devices: seq<string>, names: seq<string>)
    requires devices != [] && names == ["*", "0"]
    ensures ResolveInputs(names, n => MidiInputSelection.SearchMidiInputId(devices, n))
            == seq(|devices|, i requires 0 <= i < |devices| => (i, devices[i]))
  {
    var search := n => MidiInputSelection.SearchMidiInputId(devices, n);
    var all := seq(|devices|, i requires 0 <= i < |devices| => (i, devices[i]));
    MidiInputSelection.SearchStarListsEveryDevice(devices);
    MidiInputSelection.SearchNumberListsThatDevice(devices, 0);
    assert Decimal.NatToString(0) == "0";
    SelectManyPair(names, search);
    assert all[0] == (0, devices[0]);
    DedupRepeat(all, (0, devices[0]));
    DedupOfDistinct(all);
  }

  /** The usage examples' two inputs, joined. */
  lemma JoinExample(names: seq<string>)
    requires names == ["Korg M1", "Impulse"]
    ensures Join(", ", names) == "Korg M1, Impulse"
  {
    assert names[1..] == ["Impulse"];
  }

  /** The error text for the usage examples' two inputs. */
  lemma NoInputsMessageExample(names: seq<string>)
    requires names == ["Korg M1", "Impulse"]
    ensures NoInputsMessage(names) == "No MIDI inputs for 'Korg M1, Impulse' could be located"
  {
    JoinExample(names);
  }
}
