/** Which of several ready sources one poll of a driven socket reports: reads and commands in turn, the timer last. */
module Turns {

  /** What is ready when the poll comes to its sources, and whether the outbox has room for a command. */
  datatype Ready = Ready(read: bool, command: bool, room: bool, timer: bool) {
    predicate Asks() {
      command && room
    }
  }

  datatype Source = Read | Command | Timer

  datatype Choice = Reported(source: Source) | Pending

  function Reads(r: Ready, otherwise: Choice): Choice {
    if r.read then Reported(Read) else otherwise
  }

  function Asks(r: Ready, otherwise: Choice): Choice {
    if r.Asks() then Reported(Command) else otherwise
  }

  /** What a poll reports whose flag, once flipped, is `turn`. */
  function Chosen(turn: bool, r: Ready): Choice {
    var last := if r.timer then Reported(Timer) else Pending;
    if turn then Reads(r, Asks(r, last)) else Asks(r, Reads(r, last))
  }

  class Sources {
    var turn: bool

    constructor ()
      ensures !turn
    {
      turn := false;
    }

    method Poll(r: Ready) returns (choice: Choice)
      modifies this
      ensures turn == !old(turn) && choice == Chosen(turn, r)
    {
      turn := !turn;
      if turn {
        if r.read {
          return Reported(Read);
        }
        if r.room && r.command {
          return Reported(Command);
        }
      } else {
        if r.room && r.command {
          return Reported(Command);
        }
        if r.read {
          return Reported(Read);
        }
      }
      if r.timer {
        return Reported(Timer);
      }
      choice := Pending;
    }
  }

  // ---- over many polls -----------------------------------------------------------------------------------

  /** The flag of the poll number `n`, counted from zero, when it stood at `turn` before the first. */
  function Flag(turn: bool, n: nat): bool {
    if n % 2 == 0 then !turn else turn
  }

  function Choices(turn: bool, polls: seq<Ready>): (choices: seq<Choice>)
    ensures |choices| == |polls|
    decreases |polls|
  {
    if polls == [] then [] else [Chosen(!turn, polls[0])] + Choices(!turn, polls[1..])
  }

  lemma {:induction false} ChoiceAt(turn: bool, polls: seq<Ready>, n: nat)
    requires n < |polls|
    ensures Choices(turn, polls)[n] == Chosen(Flag(turn, n), polls[n])
    decreases n
  {
    hide Chosen;
    if n > 0 {
      ChoiceAt(!turn, polls[1..], n - 1);
    }
  }

  function Count(choices: seq<Choice>, source: Source): nat {
    if choices == [] then 0 else (if choices[0] == Reported(source) then 1 else 0) + Count(choices[1..], source)
  }

  predicate IsReady(r: Ready, source: Source) {
    match source case Read => r.read case Command => r.Asks() case Timer => r.timer
  }

  /** The source is ready at every poll. */
  predicate AlwaysReady(polls: seq<Ready>, source: Source) {
    forall n | 0 <= n < |polls| :: IsReady(polls[n], source)
  }

  /** Of two polls in a row at which a read, or a command with room for it, is ready, one reports it. */
  lemma OneOfTwo(turn: bool, polls: seq<Ready>, n: nat, source: Source)
    requires n + 1 < |polls| && AlwaysReady(polls[n..n + 2], source) && !source.Timer?
    ensures Reported(source) in Choices(turn, polls)[n..n + 2]
  {
    var choices := Choices(turn, polls);
    ChoiceAt(turn, polls, n);
    ChoiceAt(turn, polls, n + 1);
    assert polls[n..n + 2][0] == polls[n] && polls[n..n + 2][1] == polls[n + 1];
    assert choices[n..n + 2][0] == choices[n] && choices[n..n + 2][1] == choices[n + 1];
  }

  /** A busy socket cannot starve callers, nor callers the socket: whoever is ready gets every other poll. */
  lemma {:induction false} NobodyStarves(turn: bool, polls: seq<Ready>, source: Source)
    requires AlwaysReady(polls, source) && !source.Timer?
    ensures |polls| / 2 <= Count(Choices(turn, polls), source)
    decreases |polls|
  {
    if |polls| >= 2 {
      var rest := polls[2..];
      assert forall n | 0 <= n < |rest| :: rest[n] == polls[n + 2];
      assert polls[1..][1..] == rest;
      NobodyStarves(turn, rest, source);
      var choices := Choices(turn, polls);
      assert choices[1..] == Choices(!turn, polls[1..]) && choices[1..][1..] == Choices(turn, rest);
      ChoiceAt(turn, polls, 0);
      ChoiceAt(turn, polls, 1);
    }
  }

  /** The timer is reported exactly when it is due and nothing else is ready; so traffic can hold it back for ever. */
  lemma TimerComesLast(turn: bool, polls: seq<Ready>, n: nat)
    requires n < |polls|
    ensures Choices(turn, polls)[n] == Reported(Timer) <==> polls[n].timer && !polls[n].read && !polls[n].Asks()
  {
    ChoiceAt(turn, polls, n);
  }

  /** With both always ready the shares are equal, up to one. */
  lemma {:induction false} SharesAreEqual(turn: bool, polls: seq<Ready>)
    requires AlwaysReady(polls, Read) && AlwaysReady(polls, Command)
    ensures Count(Choices(turn, polls), Read) + Count(Choices(turn, polls), Command) == |polls|
    ensures Count(Choices(turn, polls), Read) == (if turn then |polls| / 2 else (|polls| + 1) / 2)
    decreases |polls|
  {
    if polls != [] {
      assert forall n | 0 <= n < |polls[1..]| :: polls[1..][n] == polls[n + 1];
      SharesAreEqual(!turn, polls[1..]);
      assert Choices(turn, polls)[1..] == Choices(!turn, polls[1..]);
    }
  }
}
