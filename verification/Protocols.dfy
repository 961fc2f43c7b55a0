/** The protocol that a group of endpoints has in common. */
module Protocols {
  import opened Strings
  import opened TagSelectors
  import opened Topology

  datatype Protocol = UnknownProtocol | TcpProtocol | HttpProtocol

  const PROTOCOL_TAG := "protocol"

  /** `ParseProtocol`: the case of the tag does not matter. */
  function ParseProtocol(tag: string): Protocol {
    match ToLower(tag)
    case "http" => HttpProtocol
    case "tcp" => TcpProtocol
    case _ => UnknownProtocol
  }

  /** The protocol tag of an endpoint, empty if there is none. */
  function TagOf(e: Endpoint): string {
    if PROTOCOL_TAG in e.tags then e.tags[PROTOCOL_TAG] else ""
  }

  /** A protocol and those below it. */
  function StackOf(p: Protocol): seq<Protocol> {
    match p
    case HttpProtocol => [HttpProtocol, TcpProtocol]
    case TcpProtocol => [TcpProtocol]
    case UnknownProtocol => []
  }

  /** `getCommonProtocol`: the first protocol of one stack that is on the other. */
  method GetCommonProtocol(one: Protocol, another: Protocol) returns (common: Protocol)
    ensures common.UnknownProtocol? <==> one.UnknownProtocol? || another.UnknownProtocol?
    ensures common.HttpProtocol? <==> one.HttpProtocol? && another.HttpProtocol?
  {
    if one == another {
      return one;
    }
    if one.UnknownProtocol? || another.UnknownProtocol? {
      return UnknownProtocol;
    }
    var oneStack, anotherStack := StackOf(one), StackOf(another);
    assert oneStack[|oneStack| - 1] == TcpProtocol && anotherStack[|anotherStack| - 1] == TcpProtocol;
    for i := 0 to |oneStack|
      invariant forall k :: 0 <= k < i ==> oneStack[k] !in anotherStack
    {
      for j := 0 to |anotherStack|
        invariant oneStack[i] !in anotherStack[..j]
      {
        if oneStack[i] == anotherStack[j] {
          return oneStack[i];
        }
      }
    }
    return UnknownProtocol;
  }

  predicate SpeaksHttp(e: Endpoint) {
    ParseProtocol(TagOf(e)) == HttpProtocol
  }

  predicate AllHttp(endpoints: seq<Endpoint>) {
    endpoints != [] && forall k :: 0 <= k < |endpoints| ==> SpeaksHttp(endpoints[k])
  }

  /** Exactly the tags "http" and "HTTP" and those in between mean HTTP. */
  lemma HttpTags(e: Endpoint)
    ensures SpeaksHttp(e) <==>
            && PROTOCOL_TAG in e.tags && var t := e.tags[PROTOCOL_TAG];
            |t| == 4 && t[0] in "hH" && t[1] in "tT" && t[2] in "tT" && t[3] in "pP"
  {
    if PROTOCOL_TAG in e.tags {
      var t := e.tags[PROTOCOL_TAG];
      if |t| == 4 {
        assert ToLower(t) == [LowerChar(t[0]), LowerChar(t[1]), LowerChar(t[2]), LowerChar(t[3])];
      }
    }
  }

  /** `InferServiceProtocol`: HTTP exactly if there are endpoints and all of them speak it; nothing known
      exactly if there is none, or one whose protocol is not known. */
  method InferServiceProtocol(endpoints: seq<Endpoint>) returns (protocol: Protocol)
    ensures protocol.HttpProtocol? <==> AllHttp(endpoints)
    ensures protocol.UnknownProtocol? <==> endpoints == [] || exists k :: 0 <= k < |endpoints| && ParseProtocol(TagOf(endpoints[k])).UnknownProtocol?
  {
    hide ParseProtocol, TagOf;
    if |endpoints| == 0 {
      return UnknownProtocol;
    }
    protocol := ParseProtocol(TagOf(endpoints[0]));
    for k := 1 to |endpoints|
      invariant protocol.HttpProtocol? <==> forall j :: 0 <= j < k ==> SpeaksHttp(endpoints[j])
      invariant protocol.UnknownProtocol? <==> exists j :: 0 <= j < k && ParseProtocol(TagOf(endpoints[j])).UnknownProtocol?
    {
      protocol := GetCommonProtocol(protocol, ParseProtocol(TagOf(endpoints[k])));
    }
  }
}
