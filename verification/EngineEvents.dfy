/** What an agent's event sequence decides: success is settled by the last result, the output by the
    last event that writes it. */
module EngineEvents {
  import opened Engine

  /** Event i is the last result of the sequence. */
  ghost predicate LastResultAt(events: seq<AgentEvent>, i: int) {
    0 <= i < |events| && events[i].ResultLine? && forall j :: i < j < |events| ==> !events[j].ResultLine?
  }

  /** The events that replace the recorded output: successful results, errors, and a failing exit
      that comes before any result. */
  ghost predicate WritesAt(events: seq<AgentEvent>, i: int) {
    0 <= i < |events| &&
    match events[i]
    case ResultLine(_, isError, _) => !isError
    case AgentError(_) => true
    case ProcessExited(code) => code != 0 && forall j :: 0 <= j < i ==> !events[j].ResultLine?
    case OtherEvent => false
  }

  ghost predicate LastWriteAt(events: seq<AgentEvent>, i: int) {
    WritesAt(events, i) && forall j :: i < j < |events| ==> !WritesAt(events, j)
  }

  function Written(e: AgentEvent): string {
    match e
    case ResultLine(result, _, _) => result
    case AgentError(error) => error
    case ProcessExited(code) => ExitMessage(code)
    case OtherEvent => ""
  }

  function Magnitude(code: int): nat {
    if code < 0 then -code else code
  }

  predicate IsDigit(c: char) {
    '0' <= c <= '9'
  }

  /** The number that a numeral in base ten denotes. */
  function Denoted(digits: string): nat {
    if digits == "" then 0
    else
      var last := digits[|digits| - 1];
      10 * Denoted(digits[..|digits| - 1]) + if IsDigit(last) then last as int - '0' as int else 0
  }

  /** The numeral of a number: digits without a leading zero. */
  ghost predicate IsNumeral(digits: string, n: nat) {
    && (forall c <- digits :: IsDigit(c)) && Denoted(digits) == n
    && digits != "" && (n > 0 ==> digits[0] != '0') && (n == 0 ==> digits == "0")
  }

  lemma {:induction false} DigitsAreNumeral(n: nat)
    ensures IsNumeral(Digits(n), n)
  {
    var last := ('0' as int + n % 10) as char;
    if n < 10 {
      assert Digits(n) == [last];
    } else {
      DigitsAreNumeral(n / 10);
      assert Digits(n) == Digits(n / 10) + [last];
      assert Digits(n)[..|Digits(n)| - 1] == Digits(n / 10);
    }
  }

  /** An exit code is reported in base ten, with a sign exactly if it is negative. */
  lemma ExitMessageNamesCode(code: int)
    ensures exists digits ::
      IsNumeral(digits, Magnitude(code)) &&
      ExitMessage(code) == "Process exited with code " + (if code < 0 then "-" else "") + digits
  {
    var n := Magnitude(code);
    DigitsAreNumeral(n);
    hide Digits, Denoted, IsNumeral;
    var prefix, digits := "Process exited with code ", Digits(n);
    assert prefix + ("-" + digits) == prefix + "-" + digits;
    assert prefix + digits == prefix + "" + digits;
    assert IsNumeral(digits, Magnitude(code)) && ExitMessage(code) == prefix + (if code < 0 then "-" else "") + digits;
  }

  lemma {:induction false} ResultSeen(events: seq<AgentEvent>)
    ensures ReadAll(events).result.Some? <==> exists i :: LastResultAt(events, i)
    ensures forall i :: LastResultAt(events, i) ==>
      ReadAll(events).result.value.exitCode == (if events[i].isError then 1 else 0) &&
      ReadAll(events).result.value.inputTokens == events[i].usage.GetOr(Usage(0, 0)).inputTokens &&
      ReadAll(events).result.value.outputTokens == events[i].usage.GetOr(Usage(0, 0)).outputTokens
    ensures ReadAll(events).result.None? ==> forall i :: 0 <= i < |events| ==> !events[i].ResultLine?
  {
    if events != [] {
      var n := |events| - 1;
      var front := events[..n];
      ResultSeen(front);
      assert forall i :: 0 <= i < n ==> front[i] == events[i];
      if events[n].ResultLine? {
        assert LastResultAt(events, n);
      } else {
        assert forall i :: LastResultAt(front, i) <==> LastResultAt(events, i);
      }
    }
  }

  /** An execution succeeds exactly when its last result reports no error. */
  lemma {:induction false} SuccessIffLastResultOk(events: seq<AgentEvent>)
    ensures ReadAll(events).Success() <==> exists i :: LastResultAt(events, i) && !events[i].isError
  {
    ResultSeen(events);
    if ReadAll(events).Success() {
      var i :| LastResultAt(events, i);
    }
  }

  lemma WritesFront(events: seq<AgentEvent>, n: nat)
    requires n <= |events|
    ensures forall i :: 0 <= i < n ==> (WritesAt(events[..n], i) <==> WritesAt(events, i))
  {
    assert forall i :: 0 <= i < n ==> events[..n][i] == events[i];
  }

  lemma {:induction false} NoResultYet(events: seq<AgentEvent>)
    ensures ReadAll(events).result.None? <==> forall i :: 0 <= i < |events| ==> !events[i].ResultLine?
  {
    if events != [] {
      NoResultYet(events[..|events| - 1]);
    }
  }

  lemma OutputStep(events: seq<AgentEvent>, n: nat)
    requires n + 1 == |events|
    ensures ReadAll(events).output == (if WritesAt(events, n) then Written(events[n]) else ReadAll(events[..n]).output)
  {
    hide ExitMessage;
    NoResultYet(events[..n]);
    assert forall i :: 0 <= i < n ==> events[..n][i] == events[i];
  }

  /** The output is what the last writing event wrote, and empty if none wrote. */
  lemma {:induction false} OutputIsLastWrite(events: seq<AgentEvent>)
    ensures forall i :: LastWriteAt(events, i) ==> ReadAll(events).output == Written(events[i])
    ensures (forall i :: 0 <= i < |events| ==> !WritesAt(events, i)) ==> ReadAll(events).output == ""
  {
    if events != [] {
      var n := |events| - 1;
      OutputIsLastWrite(events[..n]);
      WritesFront(events, n);
      OutputStep(events, n);
      forall i | LastWriteAt(events, i) ensures ReadAll(events).output == Written(events[i]) {
        if i < n {
          assert !WritesAt(events, n);
          assert LastWriteAt(events[..n], i);
        }
      }
    }
  }

  /** A successful step records its last result's text, or the text of the last error reported after it. */
  lemma SuccessfulOutput(events: seq<AgentEvent>, i: int)
    requires LastResultAt(events, i) && !events[i].isError
    ensures ReadAll(events).Success()
    ensures (forall j :: i < j < |events| ==> !events[j].AgentError?) ==> ReadAll(events).output == events[i].result
    ensures forall j :: i < j < |events| && events[j].AgentError? && (forall k :: j < k < |events| ==> !events[k].AgentError?) ==>
      ReadAll(events).output == events[j].error
  {
    SuccessIffLastResultOk(events);
    OutputIsLastWrite(events);
    assert WritesAt(events, i);
    forall j | i < j < |events| && !events[j].AgentError? ensures !WritesAt(events, j) {
    }
    if forall j :: i < j < |events| ==> !events[j].AgentError? {
      assert LastWriteAt(events, i);
    }
    forall j | i < j < |events| && events[j].AgentError? && forall k :: j < k < |events| ==> !events[k].AgentError?
      ensures ReadAll(events).output == events[j].error
    {
      assert LastWriteAt(events, j);
    }
  }
}
