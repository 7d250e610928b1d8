/**
 * The control-protocol vocabulary the proxy speaks: typed message arguments,
 * outgoing messages as recorded in the send log, inbound messages, and the
 * fixed (path, typespec) dispatch table registered by `init_osc`.
 */
module Osc {
  import opened Wrappers

  /** An argument of a message: an OSC string (`s`) or 32-bit integer (`i`). */
  datatype Arg = Str(s: string) | Int(i: int)

  /**
   * An outgoing message, as recorded when it is sent. `to` is the destination
   * address; `None` stands for a destination global that is still NULL.
   */
  datatype Message = Message(to: Option<string>, path: string, args: seq<Arg>)

  /** A decoded inbound message and the URL of its sender. */
  datatype Inbound = Inbound(path: string, args: seq<Arg>, source: string)

  function Tag(a: Arg): char {
    match a
    case Str(_) => 's'
    case Int(_) => 'i'
  }

  /** The type signature of an argument list, one tag character per argument. */
  function Typespec(args: seq<Arg>): (r: string)
    ensures |r| == |args|
    ensures forall k :: 0 <= k < |args| ==> (r[k] == 's' <==> args[k].Str?) && (r[k] == 'i' <==> args[k].Int?)
  {
    if args == [] then [] else [Tag(args[0])] + Typespec(args[1..])
  }

  /** The handlers `init_osc` registers. */
  datatype Handler =
    | SaveRequest | OpenRequest | ShowGuiRequest | HideGuiRequest
    | AnnounceError | AnnounceReply
    | SetLabel | SetSaveSignal | SetStopSignal | KillRequest | StartRequest | UpdateRequest

  /** The handlers for messages from the session manager; the rest serve the proxy's GUI. */
  predicate FromServer(h: Handler) {
    h.SaveRequest? || h.OpenRequest? || h.ShowGuiRequest? || h.HideGuiRequest? || h.AnnounceError? || h.AnnounceReply?
  }

  datatype Route = Route(path: string, types: string, handler: Handler)

  /** The dispatch table, in registration order. */
  const Table: seq<Route> := [
    Route("/nsm/client/save", "", SaveRequest),
    Route("/nsm/client/open", "sss", OpenRequest),
    Route("/nsm/client/show_optional_gui", "", ShowGuiRequest),
    Route("/nsm/client/hide_optional_gui", "", HideGuiRequest),
    Route("/error", "sis", AnnounceError),
    Route("/reply", "ssss", AnnounceReply),
    Route("/nsm/proxy/label", "s", SetLabel),
    Route("/nsm/proxy/save_signal", "i", SetSaveSignal),
    Route("/nsm/proxy/stop_signal", "i", SetStopSignal),
    Route("/nsm/proxy/kill", "", KillRequest),
    Route("/nsm/proxy/start", "sss", StartRequest),
    Route("/nsm/proxy/update", "", UpdateRequest)
  ]

  predicate Matches(r: Route, path: string, types: string) {
    r.path == path && r.types == types
  }

  /** The handler of the first route of `routes` matching exactly, if any. */
  function LookupIn(routes: seq<Route>, path: string, types: string): (h: Option<Handler>)
    ensures h.None? <==> forall i :: 0 <= i < |routes| ==> !Matches(routes[i], path, types)
    ensures h.Some? ==> exists i :: 0 <= i < |routes| && Matches(routes[i], path, types) && routes[i].handler == h.value
  {
    if routes == [] then None
    else if Matches(routes[0], path, types) then Some(routes[0].handler)
    else
      var h := LookupIn(routes[1..], path, types);
      assert forall i :: 1 <= i < |routes| ==> routes[i] == routes[1..][i - 1];
      h
  }

  /** Dispatch: a message whose path and signature match no entry is dropped. */
  function Lookup(path: string, types: string): (h: Option<Handler>)
    ensures h.None? <==> forall i :: 0 <= i < |Table| ==> !Matches(Table[i], path, types)
    ensures h.Some? ==> exists i :: 0 <= i < |Table| && Matches(Table[i], path, types) && Table[i].handler == h.value
  {
    LookupIn(Table, path, types)
  }

  /** No path is registered twice, so at most one entry can match a message. */
  lemma TablePathsDistinct()
    ensures forall i, j :: 0 <= i < j < |Table| ==> Table[i].path != Table[j].path
  {
  }

  /** Every handler is reached through exactly its own entry of the table. */
  lemma {:induction false} LookupRoute(i: nat)
    requires i < |Table|
    ensures Lookup(Table[i].path, Table[i].types) == Some(Table[i].handler)
  {
    TablePathsDistinct();
    var h := Lookup(Table[i].path, Table[i].types);
    assert h.Some?;
    var j :| 0 <= j < |Table| && Matches(Table[j], Table[i].path, Table[i].types) && Table[j].handler == h.value;
    assert i == j;
  }

  /** The signature each handler is registered with. */
  function Signature(h: Handler): string {
    match h
    case SaveRequest => ""
    case OpenRequest => "sss"
    case ShowGuiRequest => ""
    case HideGuiRequest => ""
    case AnnounceError => "sis"
    case AnnounceReply => "ssss"
    case SetLabel => "s"
    case SetSaveSignal => "i"
    case SetStopSignal => "i"
    case KillRequest => ""
    case StartRequest => "sss"
    case UpdateRequest => ""
  }

  lemma TableSignatures()
    ensures forall k :: 0 <= k < |Table| ==> Table[k].types == Signature(Table[k].handler)
  {
  }

  /**
   * A message is routed to a handler only when its type signature is exactly
   * the one that handler is registered with.
   */
  lemma {:induction false} RoutedSignature(path: string, types: string, h: Handler)
    requires Lookup(path, types) == Some(h)
    ensures types == Signature(h)
  {
    TableSignatures();
  }
}
