/** The owner of an awaitable delivery or follow-up: dropped before it is disarmed, it ends the call. */
module ClientAsync {
  import opened Common
  import opened Engines
  import opened ClientModel
  import opened LiveTable
  import opened ReplyTable
  import opened Clients

  /** How the work ended; `refused` is the transport's own word that nothing was sent. */
  datatype Ending = Done | Io(refused: bool) | SendLength | CommitAfterSend | OtherError

  /** The peer may have seen the send. */
  predicate InDoubt(ending: Ending) {
    ending == Io(false) || ending.SendLength? || ending.CommitAfterSend?
  }

  class Continuation {
    const client: Client
    const call: Option<Call>
    const rx: Option<Slot>
    var cancel: bool

    /** Armed from the start, so that a drop at any await finds it so. */
    constructor (app: Client, c: Option<Call>, packet: Option<Slot>)
      ensures client == app && call == c && rx == packet && cancel
    {
      client, call, rx, cancel := app, c, packet, true;
    }

    /** `finish`: disarmed unless a send is in doubt. */
    method Finish(ending: Ending)
      modifies this
      ensures cancel <==> InDoubt(ending)
    {
      cancel := match ending
        case Io(refused) => !refused
        case SendLength => true
        case CommitAfterSend => true
        case _ => false;
    }

    /** `drop`. */
    method Drop()
      requires client.Valid()
      modifies client`engine, client.lives, client.inbox
      ensures client.Valid()
      ensures client.S() == if cancel then DropContinuation(old(client.S()), client.cfg, call, rx) else old(client.S())
    {
      hide LiveTable.Views, ReplyTable.Views, OnePerEndpoint, Fail, AbandonSend;
      if !cancel { return; }
      if call.Some? {
        var live := client.lives.Get(call.value);
        if live.Some? {
          client.AbandonCall(call.value);
          client.FailCall(call.value, ContinuationFailed, true);
        }
      }
      if rx.Some? {
        var held := client.inbox.HoldsDatagram(rx.value);
        if !held {
          client.engine := ReleaseRx(client.engine, rx.value);
        }
      }
    }
  }
}
