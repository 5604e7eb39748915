/** The pending-call table: ids, epochs and how every waiter is settled. */
module Correlate {
  import opened Prelude
  import opened Protocol

  // ---- call ids ------------------------------------------------------------------------

  function Decimal(n: nat): (text: string)
    ensures |text| > 0
  {
    if n < 10 then [DIGITS[n]] else Decimal(n / 10) + [DIGITS[n % 10]]
  }

  const DIGITS: string := "0123456789"

  function IdOf(prefix: string, n: nat): string {
    prefix + Decimal(n)
  }

  lemma {:induction false} DecimalIsInjective(a: nat, b: nat)
    requires Decimal(a) == Decimal(b)
    ensures a == b
  {
    var text := Decimal(a);
    assert text[|text| - 1] == DIGITS[a % 10] && text[|text| - 1] == DIGITS[b % 10];
    assert a % 10 == b % 10;
    if a >= 10 && b >= 10 {
      assert Decimal(a / 10) == text[..|text| - 1] == Decimal(b / 10);
      DecimalIsInjective(a / 10, b / 10);
    } else {
      assert |text| == 1;
    }
  }

  /** Two tables with different one-letter prefixes never mint the same id, and one table never mints an id twice. */
  lemma IdsNeverCollide(p: char, a: nat, q: char, b: nat)
    ensures IdOf([p], a) == IdOf([q], b) <==> p == q && a == b
  {
    if IdOf([p], a) == IdOf([q], b) {
      assert IdOf([p], a)[0] == p && IdOf([q], b)[0] == q;
      assert Decimal(a) == IdOf([p], a)[1..] == IdOf([q], b)[1..] == Decimal(b);
      DecimalIsInjective(a, b);
    }
  }

  // ---- the table as a value ------------------------------------------------------------

  datatype CallError = Server(error: DdpError) | NotSent | Abandoned(id: string)

  datatype Call = Call(epoch: nat, sent: bool)

  datatype Resolution = Delivered | UnknownCall | StaleEpoch | CallerGone

  /** Epochs are 64-bit and wrap. */
  const EPOCHS: nat := 0x1_0000_0000_0000_0000

  function NextEpoch(epoch: nat): nat {
    (epoch + 1) % EPOCHS
  }

  type Reply = Prelude.Result<Json, CallError>

  /** `handed` is every value handed to a caller, with the id it was handed over for. */
  datatype Table = Table(
    prefix: string, epoch: nat, nextId: nat, pending: map<string, Call>, handed: multiset<(string, Reply)>)
  {
    /** The id the next registration will carry. */
    function NextCall(): string {
      IdOf(prefix, nextId)
    }

    function Register(): Table {
      this.(nextId := nextId + 1, pending := pending[NextCall() := Call(epoch, false)])
    }

    /** Marks every id in `ids` that is still pending as handed to the socket. */
    function MarkSent(ids: set<string>): Table {
      this.(pending := map id | id in pending ::
              Call(pending[id].epoch, pending[id].sent || id in ids))
    }

    function Forget(id: string): Table {
      this.(pending := pending - {id})
    }

    /** A reply settles its call; the value reaches the caller if the entry is of this epoch and the caller waits. */
    function Resolve(id: string, outcome: Prelude.Result<Json, DdpError>, callerAlive: bool): Table {
      Forget(id).(handed := handed + if Outcome(id, callerAlive).Delivered? then multiset{(id, AsReply(outcome))}
                                     else multiset{})
    }

    function Outcome(id: string, callerAlive: bool): Resolution {
      if id !in pending then UnknownCall
      else if pending[id].epoch != epoch then StaleEpoch
      else if callerAlive then Delivered
      else CallerGone
    }

    /** The error each waiter is handed when the connection ends now. */
    function Verdicts(): map<string, CallError> {
      map id | id in pending :: if pending[id].sent then Abandoned(id) else NotSent
    }

    function Disconnect(): Table {
      this.(epoch := NextEpoch(epoch), pending := map[], handed := handed + Errors(Verdicts()))
    }

    /** Whether this table minted `id`. */
    ghost predicate Issued(id: string) {
      exists n: nat :: n < nextId && id == IdOf(prefix, n)
    }
  }

  /** Each waiter and its error, once. */
  function Errors(verdicts: map<string, CallError>): multiset<(string, Reply)> {
    multiset(set id | id in verdicts :: (id, Reply.Failure(verdicts[id])))
  }

  function NewTable(prefix: string): Table {
    Table(prefix, 0, 0, map[], multiset{})
  }

  lemma RegisterIssues(t: Table)
    ensures t.Register().Issued(t.NextCall())
    ensures forall id :: t.Issued(id) ==> t.Register().Issued(id)
  {
    assert t.NextCall() == IdOf(t.prefix, t.nextId);
  }

  // ---- the table as the runner holds it ------------------------------------------------

  /** `batch` hands each waiter in `verdicts` its own error, exactly once, in some order. */
  ghost predicate Enumerates(batch: seq<(string, Reply)>, verdicts: map<string, CallError>) {
    && |batch| == |verdicts|
    && (forall i | 0 <= i < |batch| ::
          batch[i].0 in verdicts && batch[i].1 == Failure(verdicts[batch[i].0]))
    && (forall i, j | 0 <= i < j < |batch| :: batch[i].0 != batch[j].0)
    && (forall id | id in verdicts :: exists i :: 0 <= i < |batch| && batch[i].0 == id)
  }

  class Correlator {
    const prefix: string
    var epoch: nat
    var nextId: nat
    var pending: map<string, Call>
    /** Every value handed to a caller's one-shot channel, in order. */
    var replies: seq<(string, Reply)>

    ghost function View(): Table
      reads this
    {
      Table(prefix, epoch, nextId, pending, multiset(replies))
    }

    constructor (prefix: string)
      ensures View() == NewTable(prefix) && replies == []
    {
      this.prefix := prefix;
      epoch := 0;
      nextId := 0;
      pending := map[];
      replies := [];
    }

    method Register() returns (id: string)
      modifies this
      ensures id == old(View()).NextCall()
      ensures View() == old(View()).Register()
      ensures replies == old(replies)
    {
      id := IdOf(prefix, nextId);
      nextId := nextId + 1;
      pending := pending[id := Call(epoch, false)];
    }

    method MarkSent(id: string)
      modifies this
      ensures View() == old(View()).MarkSent({id})
      ensures replies == old(replies)
    {
      if id in pending {
        pending := pending[id := Call(pending[id].epoch, true)];
      }
      assert pending == old(View()).MarkSent({id}).pending;
    }

    method Resolve(id: string, outcome: Prelude.Result<Json, DdpError>, callerAlive: bool)
      returns (resolution: Resolution)
      modifies this
      ensures resolution == old(View()).Outcome(id, callerAlive)
      ensures View() == old(View()).Resolve(id, outcome, callerAlive)
      ensures replies == old(replies) +
                         if resolution.Delivered? then [(id, AsReply(outcome))] else []
    {
      assert multiset(replies + [(id, AsReply(outcome))]) == multiset(replies) + multiset{(id, AsReply(outcome))};
      if id !in pending {
        assert pending - {id} == pending;
        return UnknownCall;
      }
      var call := pending[id];
      pending := pending - {id};
      if call.epoch != epoch {
        return StaleEpoch;
      }
      if callerAlive {
        replies := replies + [(id, AsReply(outcome))];
        return Delivered;
      }
      return CallerGone;
    }

    method Cancel(id: string) returns (removed: bool)
      modifies this
      ensures removed <==> id in old(pending)
      ensures View() == old(View()).Forget(id)
      ensures replies == old(replies)
    {
      removed := id in pending;
      pending := pending - {id};
    }

    /** Ends the connection: every waiter is handed an error, then a new epoch begins. */
    method Disconnect() returns (count: nat, ghost batch: seq<(string, Reply)>)
      modifies this
      ensures View() == old(View()).Disconnect()
      ensures count == |old(pending)|
      ensures replies == old(replies) + batch && Enumerates(batch, old(View()).Verdicts())
    {
      VerdictsCount(View());
      count := |pending|;
      var sent := SendErrors(pending, View().Verdicts());
      batch := sent;
      assert multiset(replies + sent) == multiset(replies) + multiset(sent);
      replies := replies + sent;
      pending := map[];
      epoch := NextEpoch(epoch);
    }

    /** Drains the abandoned calls, sending each its error. */
    static method SendErrors(abandoned: map<string, Call>, ghost verdicts: map<string, CallError>)
      returns (batch: seq<(string, Reply)>)
      requires verdicts.Keys == abandoned.Keys
      requires forall id | id in abandoned ::
                 verdicts[id] == if abandoned[id].sent then Abandoned(id) else NotSent
      ensures Enumerates(batch, verdicts) && multiset(batch) == Errors(verdicts)
    {
      hide Enumerates, Errors;
      var left := abandoned;
      batch := [];
      ghost var done: map<string, CallError> := map[];
      NothingEnumerated();
      while left != map[]
        invariant forall id | id in left :: id in abandoned && left[id] == abandoned[id]
        invariant forall id :: id in done <==> id in abandoned && id !in left
        invariant forall id | id in done :: done[id] == verdicts[id]
        invariant Enumerates(batch, done) && multiset(batch) == Errors(done)
        decreases |left|
      {
        var id :| id in left;
        var error := if left[id].sent then Abandoned(id) else NotSent;
        EnumeratesOneMore(batch, done, id, error);
        ErrorsGrow(done, id, error);
        assert multiset(batch + [(id, Reply.Failure(error))]) == multiset(batch) + multiset{(id, Reply.Failure(error))};
        batch := batch + [(id, Failure(error))];
        left := left - {id};
        done := done[id := error];
      }
      assert done == verdicts;
    }
  }

  lemma NothingEnumerated()
    ensures Enumerates([], map[]) && Errors(map[]) == multiset{}
  {
    var none: map<string, CallError> := map[];
    assert (set id | id in none :: (id, Reply.Failure(none[id]))) == {};
  }

  lemma ErrorsGrow(verdicts: map<string, CallError>, id: string, error: CallError)
    requires id !in verdicts
    ensures Errors(verdicts[id := error]) == Errors(verdicts) + multiset{(id, Reply.Failure(error))}
  {
    var more := verdicts[id := error];
    var old', new' := (set x | x in verdicts :: (x, Reply.Failure(verdicts[x]))),
                      (set x | x in more :: (x, Reply.Failure(more[x])));
    forall p ensures p in new' <==> p in old' || p == (id, Reply.Failure(error)) {
      if p in old' {
        assert p.0 in more && p == (p.0, Reply.Failure(more[p.0]));
      }
      assert id in more;
    }
    assert (id, Reply.Failure(error)) !in old';
    assert new' == old' + {(id, Reply.Failure(error))};
  }

  lemma EnumeratesOneMore(batch: seq<(string, Reply)>, verdicts: map<string, CallError>, id: string, error: CallError)
    requires Enumerates(batch, verdicts) && id !in verdicts
    ensures Enumerates(batch + [(id, Failure(error))], verdicts[id := error])
  {
    var more := batch + [(id, Failure(error))];
    forall other {:trigger other in verdicts} | other in verdicts[id := error]
      ensures exists i :: 0 <= i < |more| && more[i].0 == other
    {
      if other == id {
        assert more[|batch|].0 == other;
      } else {
        var i :| 0 <= i < |batch| && batch[i].0 == other;
        assert more[i].0 == other;
      }
    }
  }

  function AsReply(outcome: Prelude.Result<Json, DdpError>): Reply {
    match outcome
    case Success(value) => Success(value)
    case Failure(error) => Failure(Server(error))
  }

  lemma VerdictsCount(t: Table)
    ensures |t.Verdicts()| == |t.pending|
  {
    assert t.Verdicts().Keys == t.pending.Keys;
    assert |t.Verdicts()| == |t.Verdicts().Keys|;
    assert |t.pending| == |t.pending.Keys|;
  }
}
