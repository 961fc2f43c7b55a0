/** The history of one stream: what the server sent and which requests it acted on. */
module StreamLog {
  import opened Xds
  import Decimal

  datatype Entry =
    | Sent(typeUrl: TypeUrl, serial: nat, response: Response)
    | Processed(request: Request)
    | Ignored(request: Request)

  /** The nonce stamped on a response: the stream's counter, printed. */
  function NonceOf(serial: nat): (nonce: string)
    ensures nonce != ""
  {
    Decimal.Format(serial)
  }

  predicate IsSent(e: Entry, typ: TypeUrl) {
    e.Sent? && e.typeUrl == typ
  }

  /** The server acted on a request of type `typ` that echoed `nonce`. */
  predicate IsEcho(e: Entry, typ: TypeUrl, nonce: string) {
    e.Processed? && e.request.typeUrl == typ && e.request.nonce == nonce
  }

  /** Position of the latest response of type `typ`, or -1. */
  function LastSent(log: seq<Entry>, typ: TypeUrl): (k: int)
    ensures -1 <= k < |log|
    ensures k >= 0 ==> IsSent(log[k], typ)
    ensures forall i :: k < i < |log| ==> !IsSent(log[i], typ)
  {
    if log == [] then -1
    else if IsSent(log[|log| - 1], typ) then |log| - 1
    else LastSent(log[..|log| - 1], typ)
  }

  function LastNonce(log: seq<Entry>, typ: TypeUrl): string {
    var k := LastSent(log, typ);
    if k < 0 then "" else NonceOf(log[k].serial)
  }

  /** The latest response of type `typ` has been echoed since it was sent. */
  ghost predicate Echoed(log: seq<Entry>, typ: TypeUrl) {
    var k := LastSent(log, typ);
    k >= 0 && exists i :: k < i < |log| && IsEcho(log[i], typ, NonceOf(log[k].serial))
  }

  /** Between two consecutive responses of one type the server acted on a request of
      that type which echoed the nonce of the first. */
  ghost predicate FlowControlled(log: seq<Entry>) {
    forall i, j :: 0 <= i < j < |log| && Consecutive(log, i, j) ==>
      exists k :: i < k < j && IsEcho(log[k], log[j].typeUrl, NonceOf(log[i].serial))
  }

  predicate Consecutive(log: seq<Entry>, i: nat, j: nat)
    requires i < j < |log|
  {
    && log[j].Sent? && IsSent(log[i], log[j].typeUrl)
    && forall m :: i < m < j ==> !IsSent(log[m], log[j].typeUrl)
  }

  /** Serials, over all types together, strictly increase and stay within the stream's counter. */
  predicate SerialsGrow(log: seq<Entry>, streamNonce: nat) {
    && (forall i :: 0 <= i < |log| && log[i].Sent? ==> 1 <= log[i].serial <= streamNonce)
    && (forall i, j :: 0 <= i < j < |log| && log[i].Sent? && log[j].Sent? ==> log[i].serial < log[j].serial)
  }

  lemma AppendEntry(log: seq<Entry>, e: Entry, typ: TypeUrl)
    ensures LastSent(log + [e], typ) == if IsSent(e, typ) then |log| else LastSent(log, typ)
    ensures LastNonce(log + [e], typ) == if IsSent(e, typ) then NonceOf(e.serial) else LastNonce(log, typ)
    ensures Echoed(log + [e], typ) <==>
              !IsSent(e, typ) && LastSent(log, typ) >= 0 && (Echoed(log, typ) || IsEcho(e, typ, LastNonce(log, typ)))
  {
    assert (log + [e])[..|log|] == log;
    var k := LastSent(log, typ);
    hide LastSent, NonceOf;
    if !IsSent(e, typ) && k >= 0 {
      EchoesGrow(log, e, typ, k, NonceOf(log[k].serial));
    }
  }

  lemma EchoesGrow(log: seq<Entry>, e: Entry, typ: TypeUrl, k: int, nonce: string)
    requires -1 <= k < |log|
    ensures (exists i :: k < i < |log + [e]| && IsEcho((log + [e])[i], typ, nonce))
       <==> (exists i :: k < i < |log| && IsEcho(log[i], typ, nonce)) || IsEcho(e, typ, nonce)
  {
    if i :| k < i < |log| && IsEcho(log[i], typ, nonce) {
      assert IsEcho((log + [e])[i], typ, nonce);
    }
    assert (log + [e])[|log|] == e;
  }

  lemma AppendKeepsSerials(log: seq<Entry>, e: Entry, streamNonce: nat)
    requires SerialsGrow(log, streamNonce) && (e.Sent? ==> e.serial == streamNonce + 1)
    ensures SerialsGrow(log + [e], if e.Sent? then streamNonce + 1 else streamNonce)
  {}

  /** A response may be sent when it is the first of its type or the previous one has been echoed. */
  lemma AppendKeepsFlow(log: seq<Entry>, e: Entry)
    requires FlowControlled(log)
    requires e.Sent? ==> LastSent(log, e.typeUrl) < 0 || Echoed(log, e.typeUrl)
    ensures FlowControlled(log + [e])
  {
    var log' := log + [e];
    forall i, j | 0 <= i < j < |log'| && Consecutive(log', i, j)
      ensures exists k :: i < k < j && IsEcho(log'[k], log'[j].typeUrl, NonceOf(log'[i].serial))
    {
      var typ := log'[j].typeUrl;
      assert log'[i] == log[i];
      if j == |log| {
        var last := LastSent(log, typ);
        assert last >= 0 ==> log'[last] == log[last];
        assert i == last;
        var k :| i < k < |log| && IsEcho(log[k], typ, NonceOf(log[i].serial));
        assert IsEcho(log'[k], typ, NonceOf(log'[i].serial));
      } else {
        assert forall m :: i < m < j ==> log'[m] == log[m];
        assert Consecutive(log, i, j);
        var k :| i < k < j && IsEcho(log[k], typ, NonceOf(log[i].serial));
        assert IsEcho(log'[k], typ, NonceOf(log'[i].serial));
      }
    }
  }

  /** Nonces are never issued twice on a stream, whatever the types of the responses. */
  lemma NoncesAreDistinct(log: seq<Entry>, streamNonce: nat, i: nat, j: nat)
    requires SerialsGrow(log, streamNonce)
    requires i < j < |log| && log[i].Sent? && log[j].Sent?
    ensures NonceOf(log[i].serial) != NonceOf(log[j].serial)
  {
    if NonceOf(log[i].serial) == NonceOf(log[j].serial) {
      Decimal.FormatInjective(log[i].serial, log[j].serial);
      assert false;
    }
  }
}
