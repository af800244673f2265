/**
  The field validators the forms are built from (InputRequired, Length, Email,
  EqualTo, the select-field choice check, FileRequired and FileAllowed), with
  the way a field runs its validator chain: a plain validation error is
  recorded and the chain goes on, a stop-validation error is recorded and the
  chain ends there.
 */
module Validators {

  import opened Wrappers

  /** The outcome of one validator on one field. */
  datatype Check = Pass | Fail(message: string) | Stop(message: string)

  const RequiredMessage := "This field is required."
  const InvalidEmailMessage := "Invalid email address."
  const InvalidChoiceMessage := "Not a valid choice."

  /** The messages of one validator placed before the messages of the rest of its chain. */
  function Then(check: Check, rest: seq<string>): seq<string>
  {
    match check
    case Pass => rest
    case Fail(m) => [m] + rest
    case Stop(m) => [m]
  }

  /** The messages a field collects when its validators run in order. */
  function RunChain(checks: seq<Check>): (errors: seq<string>)
    ensures errors == [] <==> forall i :: 0 <= i < |checks| ==> checks[i].Pass?
    ensures forall m :: m in errors ==>
              exists i :: 0 <= i < |checks| && !checks[i].Pass? && checks[i].message == m
    ensures forall i :: (0 <= i < |checks| && checks[i].Fail? &&
                         (forall j :: 0 <= j < i ==> !checks[j].Stop?)) ==> checks[i].message in errors
  {
    if checks == [] then []
    else
      var rest := RunChain(checks[1..]);
      assert forall i :: 1 <= i < |checks| ==> checks[i] == checks[1..][i - 1];
      Then(checks[0], rest)
  }

  /**
    The first stopping validator ends the chain: its message is the last one
    recorded, and every recorded message comes from it or from a validator
    before it.
   */
  lemma ChainStopsAtFirstStop(checks: seq<Check>, i: nat)
    requires i < |checks| && checks[i].Stop?
    requires forall j :: 0 <= j < i ==> !checks[j].Stop?
    ensures RunChain(checks) != []
    ensures RunChain(checks)[|RunChain(checks)| - 1] == checks[i].message
    ensures forall m :: m in RunChain(checks) ==>
              exists k :: 0 <= k <= i && !checks[k].Pass? && checks[k].message == m
  {
    StopMessageIsLast(checks, i);
    NothingAfterStop(checks, i);
  }

  lemma {:induction false} StopMessageIsLast(checks: seq<Check>, i: nat)
    requires i < |checks| && checks[i].Stop?
    requires forall j :: 0 <= j < i ==> !checks[j].Stop?
    ensures RunChain(checks) != []
    ensures RunChain(checks)[|RunChain(checks)| - 1] == checks[i].message
  {
    var tail := checks[1..];
    assert RunChain(checks) == Then(checks[0], RunChain(tail));
    if i == 0 {
      assert RunChain(checks) == [checks[0].message];
    } else {
      forall j | 0 <= j < i - 1 ensures !tail[j].Stop? {
        assert tail[j] == checks[j + 1];
      }
      assert tail[i - 1] == checks[i];
      StopMessageIsLast(tail, i - 1);
      var rest := RunChain(tail);
      if checks[0].Fail? {
        assert RunChain(checks) == [checks[0].message] + rest;
        assert RunChain(checks)[|RunChain(checks)| - 1] == rest[|rest| - 1];
      } else {
        assert RunChain(checks) == rest;
      }
    }
  }

  lemma {:induction false} NothingAfterStop(checks: seq<Check>, i: nat)
    requires i < |checks| && checks[i].Stop?
    requires forall j :: 0 <= j < i ==> !checks[j].Stop?
    ensures forall m :: m in RunChain(checks) ==>
              exists k :: 0 <= k <= i && !checks[k].Pass? && checks[k].message == m
  {
    var tail := checks[1..];
    var rest := RunChain(tail);
    assert RunChain(checks) == Then(checks[0], rest);
    if i > 0 {
      forall j | 0 <= j < i - 1 ensures !tail[j].Stop? {
        assert tail[j] == checks[j + 1];
      }
      assert tail[i - 1] == checks[i];
      NothingAfterStop(tail, i - 1);
      forall m | m in rest
        ensures exists k :: 0 <= k <= i && !checks[k].Pass? && checks[k].message == m
      {
        var k :| 0 <= k <= i - 1 && !tail[k].Pass? && tail[k].message == m;
        assert checks[k + 1] == tail[k];
      }
    }
  }

  /**
    Unfolding aids: the chains of one, two and three validators written out,
    for callers that build a chain from a sequence display.
   */
  lemma ChainOfOne(a: Check)
    ensures RunChain([a]) == Then(a, [])
  {
    assert [a][1..] == [];
  }

  lemma ChainOfTwo(a: Check, b: Check)
    ensures RunChain([a, b]) == Then(a, Then(b, []))
  {
    assert [a, b][1..] == [b];
    ChainOfOne(b);
  }

  lemma ChainOfThree(a: Check, b: Check, c: Check)
    ensures RunChain([a, b, c]) == Then(a, Then(b, Then(c, [])))
  {
    assert [a, b, c][1..] == [b, c];
    ChainOfTwo(b, c);
  }

  /** The decimal spelling of a natural number. */
  function NatToString(n: nat): string
  {
    if n < 10 then ["0123456789"[n]]
    else NatToString(n / 10) + ["0123456789"[n % 10]]
  }

  function LengthMessage(min: nat, max: nat): string
  {
    "Field must be between " + NatToString(min) + " and " + NatToString(max) + " characters long."
  }

  function EqualToMessage(otherName: string): string
  {
    "Field must be equal to " + otherName + "."
  }

  /** InputRequired: the raw input must be non-empty; otherwise the chain stops. */
  function InputRequired(data: string): Check
  {
    if data == "" then Stop(RequiredMessage) else Pass
  }

  /** Length(min, max) on the field's text. */
  function Length(data: string, min: nat, max: nat): Check
  {
    if min <= |data| <= max then Pass else Fail(LengthMessage(min, max))
  }

  /** Email(): the shape test itself belongs to a library and is a parameter here. */
  function Email(isEmail: string -> bool, data: string): Check
  {
    if isEmail(data) then Pass else Fail(InvalidEmailMessage)
  }

  /** EqualTo(other): the field must hold the same text as the named field. */
  function EqualTo(data: string, other: string, otherName: string): Check
  {
    if data == other then Pass else Fail(EqualToMessage(otherName))
  }

  /** The choice check a select field runs before its validators. */
  function Choice(data: string, choices: seq<string>): Check
  {
    if data in choices then Pass else Fail(InvalidChoiceMessage)
  }

  /** An uploaded file: its client-side name and its bytes. */
  datatype Upload = Upload(filename: string, stream: seq<bv8>)

  /** FileRequired: a file must be present and carry a non-empty name. */
  function FileRequired(file: Option<Upload>): Check
  {
    if file.Some? && file.value.filename != "" then Pass else Stop(RequiredMessage)
  }

  function LowerChar(c: char): char
  {
    if 'A' <= c <= 'Z' then (c as int + 32) as char else c
  }

  /** Lower-casing of ASCII letters; every other character is kept. */
  function Lower(s: string): (r: string)
    ensures |r| == |s|
  {
    seq(|s|, i requires 0 <= i < |s| => LowerChar(s[i]))
  }

  predicate EndsWith(s: string, suffix: string)
  {
    |suffix| <= |s| && s[|s| - |suffix|..] == suffix
  }

  /** True when the lower-cased name ends in "." followed by one of the extensions. */
  predicate HasExtension(filename: string, extensions: seq<string>)
  {
    exists k :: 0 <= k < |extensions| && EndsWith(Lower(filename), "." + extensions[k])
  }

  /** FileAllowed(extensions, message): a present file must have an allowed extension. */
  function FileAllowed(file: Option<Upload>, extensions: seq<string>, message: string): Check
  {
    if file.None? || file.value.filename == "" || HasExtension(file.value.filename, extensions)
    then Pass else Stop(message)
  }

  /** The decimal spellings the forms' length bounds need. */
  lemma {:induction false} SmallNumbersSpelled()
    ensures NatToString(1) == "1" && NatToString(5) == "5"
    ensures NatToString(40) == "40" && NatToString(100) == "100" && NatToString(500) == "500"
  {
    assert NatToString(4) == "4";
    assert NatToString(10) == NatToString(1) + "0";
    assert NatToString(50) == NatToString(5) + "0";
  }

  /** The message of Length(1, 40), spelled out. */
  lemma {:induction false} LengthMessageOneToForty()
    ensures LengthMessage(1, 40) == "Field must be between 1 and 40 characters long."
  {
    SmallNumbersSpelled();
  }

  /** The message of Length(1, 100), spelled out. */
  lemma {:induction false} LengthMessageOneToHundred()
    ensures LengthMessage(1, 100) == "Field must be between 1 and 100 characters long."
  {
    SmallNumbersSpelled();
  }

  /** The message of Length(5, 500), spelled out. */
  lemma {:induction false} LengthMessageFiveToFiveHundred()
    ensures LengthMessage(5, 500) == "Field must be between 5 and 500 characters long."
  {
    SmallNumbersSpelled();
  }
}
