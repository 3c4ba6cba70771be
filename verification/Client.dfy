/**
 The client itself: the two tables and the engine, changed in place by the library's operations.
 Each method's effect is the model function of the same name, on every state.
 */
module Clients {
  import opened Common
  import opened Maps
  import opened Engines
  import opened ClientModel
  import opened ClientInvariant
  import opened LiveTable
  import opened ReplyTable
  import Observe

  class Client {
    const cfg: Config
    const lives: ClientLives
    const inbox: ClientInbox
    var engine: Engine

    ghost predicate Valid()
      reads this, lives, inbox
    {
      lives.Valid() && inbox.Valid() && |lives.rows| == |inbox.rows| == cfg.calls && OnePerEndpoint(engine.tx)
    }

    ghost function S(): State
      reads this, lives, inbox
    {
      State(lives.active, lives.retired, inbox.inbox, engine)
    }

    constructor (config: Config, storage: Engine)
      requires OnePerEndpoint(storage.tx)
      ensures Valid() && fresh(lives) && fresh(inbox) && cfg == config
      ensures S() == State(map[], map[], map[], storage)
    {
      cfg := config;
      engine := storage;
      lives := new ClientLives(config.calls);
      inbox := new ClientInbox(config.calls);
    }

    /** The pending packet of a dropped exchange. */
    method DropExchange(call: Call, release: bool)
      requires Valid()
      modifies this`engine
      ensures Valid() && S() == old(S()).(engine := Engines.DropExchange(old(engine), call, release))
    {
      DropExchangeIs(engine, call, release);
      if call !in engine.exchanges { return; }
      var x := engine.exchanges[call];
      var unsent := Unsent(engine, call);
      var reserved := PendingAt(engine, x.tx);
      engine := engine.(exchanges := engine.exchanges - {call});
      if !release { return; }
      if unsent {
        var (e, ok) := CancelPending(engine, x.tx, call.peer, reserved.value);
        engine := if ok then ReleaseTx(e, x.tx) else e;
      } else {
        var (e, slot) := TakePending(engine, x.mid, call.peer);
        engine := if slot.Some? then ReleaseTx(e, slot.value) else e;
      }
    }

    /** The packet a row held goes back. */
    method DropDatagram(call: Call)
      requires Valid()
      modifies this`engine, inbox
      ensures Valid() && S() == ClientModel.DropDatagram(old(S()), call)
    {
      hide Engines.OnePerEndpoint, LiveTable.Views, ReplyTable.Views;
      DatagramIs(S(), call);
      var rx := inbox.TakeDatagram(call);
      if rx.Some? {
        engine := ReleaseRx(engine, rx.value);
      }
    }

    /** A row is put, and the body it replaced, or the one that found no room, goes back. */
    method PutReply(call: Call, meta: Result<Meta, Failure>, body: Option<Slot>)
      requires Valid()
      modifies this`engine, inbox
      ensures Valid() && S() == ClientModel.PutReply(old(S()), cfg, call, Reply(true, meta, body, None))
    {
      hide Engines.OnePerEndpoint, LiveTable.Views, ReplyTable.Views;
      var r := inbox.Insert(call, meta, body);
      match r {
        case Ok(previous) =>
          if previous.Some? && previous != body {
            engine := ReleaseBody(engine, previous.value);
          }
        case Err(_) =>
          if body.Some? {
            engine := ReleaseBody(engine, body.value);
          }
      }
    }

    method StoreReply(call: Call, meta: Meta, body: Option<Slot>)
      requires Valid()
      modifies this`engine, inbox
      ensures Valid() && S() == ClientModel.StoreReply(old(S()), cfg, call, meta, body)
    {
      hide Engines.OnePerEndpoint, LiveTable.Views, ReplyTable.Views, ClientModel.DropDatagram, ClientModel.PutReply;
      DropDatagram(call);
      PutReply(call, Ok(meta), body);
    }

    /** The call's upload, found under its own tag, is released. */
    method DropUpload(call: Call)
      requires Valid()
      modifies this`engine
      ensures Valid() && S() == ClientModel.DropUpload(old(S()), call)
    {
      hide Engines.OnePerEndpoint, LiveTable.Views, ReplyTable.Views, LookupUpload;
      var live := lives.Get(call);
      var upload := LookupUpload(engine.uploads, call, if live.Some? then live.value.tag else 0);
      if upload.Some? {
        engine := ReleaseUpload(engine, upload.value);
      }
    }

    method Disarm(call: Call)
      requires Valid()
      modifies lives
      ensures Valid() && S() == ClientModel.Disarm(old(S()), call)
      ensures SameCalls(lives.rows, old(lives.rows), 0)
    {
      hide Engines.OnePerEndpoint, LiveTable.Views, ReplyTable.Views;
      var live := lives.Get(call);
      if live.Some? {
        lives.Update(call, live.value.(due := 0, deadline := None));
      }
    }

    /** `fail_call`. */
    method FailCall(call: Call, failure: Failure, release: bool)
      requires Valid()
      modifies this`engine, lives, inbox
      ensures Valid() && S() == Fail(old(S()), cfg, call, failure, release)
      ensures SameCalls(lives.rows, old(lives.rows), 0)
    {
      hide Engines.OnePerEndpoint, LiveTable.Views, ReplyTable.Views, Fail, Engines.DropExchange,
        ClientModel.DropDatagram, ClientModel.PutReply, ClientModel.DropUpload, ClientModel.Disarm, BodiesWithout;
      FailParts(S(), cfg, call, failure, release);
      DropExchange(call, release);
      engine := engine.(observes := engine.observes - {call});
      DropDatagram(call);
      PutReply(call, Err(failure), None);
      var bodies := ReleaseBodies(engine.bodies, call);
      engine := engine.(bodies := bodies);
      DropUpload(call);
      engine := engine.(bindings := engine.bindings - {call});
      Disarm(call);
    }

    /** `abandon_send`. */
    method AbandonCall(call: Call)
      requires Valid()
      modifies this`engine
      ensures Valid() && S() == Abandon(old(S()), call)
    {
      engine := engine.(exchanges := engine.exchanges - {call});
      var tx := AbandonSlots(engine.tx, call);
      var uploads := AbandonUploads(engine.uploads, call);
      engine := engine.(tx := tx, uploads := uploads, bindings := engine.bindings - {call});
    }

    /** The row leaves, its packet and body go back, and unless a subscription lives on the call ends. */
    method Collect(call: Call) returns (reply: Reply)
      requires Valid() && Contains(S(), call)
      modifies this`engine, lives, inbox
      ensures Valid() && S() == ClientModel.Collect(old(S()), call) && reply == old(S()).inbox[call]
    {
      hide Engines.OnePerEndpoint, LiveTable.Views, ReplyTable.Views, ClientModel.Remove;
      ghost var s := S();
      var rx := inbox.TakeDatagram(call);
      if rx.Some? {
        engine := ReleaseRx(engine, rx.value);
      }
      var taken := inbox.Take(call);
      reply := taken.value.(datagram := rx);
      Gone(s.inbox, call, s.inbox[call].(datagram := None));
      if call !in engine.observes {
        lives.Remove(call);
        engine := engine.(bindings := engine.bindings - {call});
        RemoveBeside(s, call);
      }
      if reply.body.Some? {
        engine := ReleaseBody(engine, reply.body.value);
      }
    }

    /** `take_response`. */
    method TakeResponse(call: Call, tooLarge: bool) returns (r: Option<Result<Meta, Failure>>)
      requires Valid()
      modifies this`engine, lives, inbox
      ensures Valid() && (S(), r) == Take(old(S()), call, tooLarge)
    {
      hide Engines.OnePerEndpoint, LiveTable.Views, ReplyTable.Views, ClientModel.Collect, ClientModel.DropDatagram;
      var row := inbox.Get(call);
      if row.None? || !row.value.complete {
        DropDatagram(call);
        return None;
      }
      var reply := Collect(call);
      return Some(if reply.body.Some? && tooLarge then Err(ResponseBodyBounds) else reply.meta);
    }

    /** `take_response_into`. */
    method TakeResponseInto(call: Call, fits: bool) returns (r: Option<Result<Meta, Failure>>)
      requires Valid()
      modifies this`engine, lives, inbox
      ensures Valid() && (S(), r) == TakeInto(old(S()), call, fits)
    {
      hide Engines.OnePerEndpoint, LiveTable.Views, ReplyTable.Views, ClientModel.Collect;
      var row := inbox.Get(call);
      if row.None? || !row.value.complete { return None; }
      if row.value.meta.Ok? && !fits { return None; }
      var reply := Collect(call);
      return Some(reply.meta);
    }

    /** `cancel`. */
    method Cancel(call: Call) returns (cancelled: bool)
      requires Valid()
      modifies this`engine, lives, inbox
      ensures Valid() && S() == ClientModel.Cancel(old(S()), cfg, call) && cancelled == Cancellable(old(S()), call)
    {
      hide Engines.OnePerEndpoint, LiveTable.Views, ReplyTable.Views, Fail;
      var live := lives.Get(call);
      var row := inbox.Get(call);
      if live.None? || (row.Some? && row.value.complete && call !in engine.observes) { return false; }
      FailCall(call, Cancelled, true);
      return true;
    }
  }

  lemma Gone(inbox: map<Call, Reply>, c: Call, reply: Reply)
    ensures inbox[c := reply] - {c} == inbox - {c}
  {
  }

  lemma RemoveBeside(s: State, c: Call)
    ensures var only := ClientModel.Remove(Only(s.active, s.retired), c);
            forall t: State :: t.active == s.active && t.retired == s.retired ==>
              ClientModel.Remove(t, c) == State(only.active, only.retired, t.inbox, t.engine)
  {
  }
}
