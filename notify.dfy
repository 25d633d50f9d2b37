/** The notifier of notify.py: it forwards command notes that arrive on the
    push service to the controller's command topic, and turns notification
    requests from the other daemons into outgoing notes and text messages.
    The push service is reduced to the history it answers with and a ghost
    log of what it is asked to send. */
module Notify {
  import opened Wire

  /** An entry of the service's device list. */
  datatype Device = Device(nickname: Option<string>, iden: string)

  /** IdentifyDevice: the iden of the first device carrying the nickname. */
  function IdentifyDevice(nickname: string, devices: seq<Device>): (r: Option<string>)
    ensures r.None? <==> forall i :: 0 <= i < |devices| ==> devices[i].nickname != Some(nickname)
    ensures r.Some? ==> exists i :: 0 <= i < |devices| && devices[i].nickname == Some(nickname)
                                    && devices[i].iden == r.value
                                    && forall j :: 0 <= j < i ==> devices[j].nickname != Some(nickname)
  {
    if devices == [] then None
    else if devices[0].nickname == Some(nickname) then Some(devices[0].iden)
    else
      var r := IdentifyDevice(nickname, devices[1..]);
      assert r.Some? ==> exists i :: 0 <= i < |devices[1..]| && devices[1..][i].nickname == Some(nickname)
                                     && devices[1..][i].iden == r.value
                                     && forall j :: 0 <= j < i ==> devices[1..][j].nickname != Some(nickname);
      assert forall i :: 0 < i < |devices| ==> devices[i] == devices[1..][i - 1];
      r
  }

  /** _GetSignature: the application device's nickname in brackets. */
  function Signature(appDevice: string): string {
    "[" + appDevice + "]"
  }

  /** The title PushNote gives an outgoing note. */
  function NoteTitle(appDevice: string, title: string): string {
    Signature(appDevice) + " " + title
  }

  /** The shapes of a command the controller accepts: a node command with a
      retry count or with a value, or a report request. */
  predicate IsCommandShape(d: Query) {
    || ("node" in d && "cmd" in d && "r" in d && "s" in d)
    || ("node" in d && "cmd" in d && "v" in d && "s" in d)
    || ("get" in d && First(d, "get") == "report")
  }

  /** What ForwardMessage does with an inbound note. */
  datatype Verdict = SelfSent | Forward | Invalid | MalformedBody

  function ForwardVerdict(appDevice: string, decode: string -> Option<Query>, title: string, body: string): (r: Verdict)
    ensures r == Forward ==> !Contains(title, Signature(appDevice))
    ensures r == Forward <==> !Contains(title, Signature(appDevice))
                              && decode(Lower(body)).Some? && IsCommandShape(decode(Lower(body)).value)
  {
    if Contains(title, Signature(appDevice)) then SelfSent
    else match decode(Lower(body))
      case None => MalformedBody
      case Some(d) => if IsCommandShape(d) then Forward else Invalid
  }

  /** A note the notifier pushes itself, echoed back by the service, is never
      forwarded as a command, whatever its body. */
  lemma NoteEchoIsNotForwarded(appDevice: string, decode: string -> Option<Query>, title: string, body: string)
    ensures ForwardVerdict(appDevice, decode, NoteTitle(appDevice, title), body) == SelfSent
  {
    assert Signature(appDevice) <= NoteTitle(appDevice, title);
  }

  /** The classification ignores letter case in the body. */
  lemma VerdictIgnoresCase(appDevice: string, decode: string -> Option<Query>, title: string, b1: string, b2: string)
    requires Lower(b1) == Lower(b2)
    ensures ForwardVerdict(appDevice, decode, title, b1) == ForwardVerdict(appDevice, decode, title, b2)
  {
  }

  /** An entry of the push history, with each key optional. */
  datatype Push = Push(
    kind: Option<string>,
    active: Option<bool>,
    dismissed: Option<bool>,
    modified: Option<real>,
    title: Option<string>,
    body: Option<string>)

  /** Python 2 orders None below every number, so before the first
      watermark is taken every modification time is newer. */
  predicate Newer(modified: real, lastModified: Option<real>) {
    lastModified.None? || modified > lastModified.value
  }

  predicate IsLiveNote(p: Push) {
    && p.kind.Some? && p.active.Some? && p.dismissed.Some? && p.modified.Some?
    && p.kind.value == "note" && p.active.value && !p.dismissed.value
  }

  /** The push CallbackInbound acts on: a live note newer than the watermark. */
  predicate Qualifies(p: Push, lastModified: Option<real>) {
    IsLiveNote(p) && Newer(p.modified.value, lastModified)
  }

  /** The state of CallbackInbound's pass over the history: the watermark,
      the bodies forwarded so far, and the error that ended the pass. */
  datatype Pass = Pass(lastModified: Option<real>, forwarded: seq<string>, raised: Option<Error>)

  /** One push: a qualifying push first moves the watermark, then its title
      and body are read (a missing one raises) and handed to ForwardMessage. */
  function InboundStep(appDevice: string, decode: string -> Option<Query>, s: Pass, p: Push): Pass {
    if s.raised.Some? || !Qualifies(p, s.lastModified) then s
    else
      var last := p.modified;
      if p.title.None? then Pass(last, s.forwarded, Some(MissingKey("title")))
      else if p.body.None? then Pass(last, s.forwarded, Some(MissingKey("body")))
      else if ForwardVerdict(appDevice, decode, p.title.value, p.body.value) == Forward
      then Pass(last, s.forwarded + [p.body.value], None)
      else Pass(last, s.forwarded, None)
  }

  /** The pass over the history in the order the service lists it. */
  function Inbound(appDevice: string, decode: string -> Option<Query>, s: Pass, pushes: seq<Push>): Pass
    decreases |pushes|
  {
    if pushes == [] then s
    else InboundStep(appDevice, decode, Inbound(appDevice, decode, s, pushes[..|pushes| - 1]), pushes[|pushes| - 1])
  }

  /** A watermark is at least another one; no watermark is below every one. */
  predicate AtLeast(now: Option<real>, before: Option<real>) {
    before.None? || (now.Some? && now.value >= before.value)
  }

  /** CallbackInbound never moves the watermark back. */
  lemma {:induction false} WatermarkNeverDecreases(appDevice: string, decode: string -> Option<Query>, s: Pass, pushes: seq<Push>)
    ensures AtLeast(Inbound(appDevice, decode, s, pushes).lastModified, s.lastModified)
    decreases |pushes|
  {
    if pushes != [] {
      WatermarkNeverDecreases(appDevice, decode, s, pushes[..|pushes| - 1]);
    }
  }

  /** Once a push has raised, the rest of the history changes nothing. */
  lemma {:induction false} RaisedIsFinal(appDevice: string, decode: string -> Option<Query>, s: Pass, pushes: seq<Push>, i: nat)
    requires i <= |pushes| && Inbound(appDevice, decode, s, pushes[..i]).raised.Some?
    ensures Inbound(appDevice, decode, s, pushes) == Inbound(appDevice, decode, s, pushes[..i])
    decreases |pushes| - i
  {
    if i < |pushes| {
      assert pushes[..i + 1][..i] == pushes[..i];
      RaisedIsFinal(appDevice, decode, s, pushes, i + 1);
    } else {
      assert pushes[..i] == pushes;
    }
  }

  /** The bodies forwarded before the pass are kept, at the front. */
  lemma {:induction false} ForwardedGrows(appDevice: string, decode: string -> Option<Query>, s: Pass, pushes: seq<Push>)
    ensures var r := Inbound(appDevice, decode, s, pushes);
      |s.forwarded| <= |r.forwarded| && r.forwarded[..|s.forwarded|] == s.forwarded
    decreases |pushes|
  {
    if pushes != [] {
      ForwardedGrows(appDevice, decode, s, pushes[..|pushes| - 1]);
    }
  }

  /** What one step adds is the body of the push it looked at, which is a
      live note newer than the step's watermark with a foreign title. */
  lemma StepForwards(appDevice: string, decode: string -> Option<Query>, s: Pass, p: Push)
    ensures var r := InboundStep(appDevice, decode, s, p);
      || r.forwarded == s.forwarded
      || (&& r.forwarded == s.forwarded + [p.body.value]
          && p.body.Some? && Qualifies(p, s.lastModified)
          && p.title.Some? && !Contains(p.title.value, Signature(appDevice)))
  {
  }

  predicate ForwardedFrom(appDevice: string, body: string, lastModified: Option<real>, pushes: seq<Push>) {
    exists i :: 0 <= i < |pushes| && IsLiveNote(pushes[i]) && Newer(pushes[i].modified.value, lastModified)
                && pushes[i].body == Some(body)
                && pushes[i].title.Some? && !Contains(pushes[i].title.value, Signature(appDevice))
  }

  /** Every body the pass forwards is the body of a live note in the history
      that was newer than the watermark the pass started from, whose title
      does not carry the notifier's own signature. */
  lemma {:induction false} ForwardsOnlyFreshCommands(appDevice: string, decode: string -> Option<Query>, s: Pass, pushes: seq<Push>)
    ensures var r := Inbound(appDevice, decode, s, pushes);
      && |s.forwarded| <= |r.forwarded|
      && forall k :: |s.forwarded| <= k < |r.forwarded| ==> ForwardedFrom(appDevice, r.forwarded[k], s.lastModified, pushes)
    decreases |pushes|
  {
    if pushes != [] {
      var init := pushes[..|pushes| - 1];
      var p := pushes[|pushes| - 1];
      var mid := Inbound(appDevice, decode, s, init);
      ForwardsOnlyFreshCommands(appDevice, decode, s, init);
      WatermarkNeverDecreases(appDevice, decode, s, init);
      StepForwards(appDevice, decode, mid, p);
      var r := Inbound(appDevice, decode, s, pushes);
      forall k | |s.forwarded| <= k < |r.forwarded|
        ensures ForwardedFrom(appDevice, r.forwarded[k], s.lastModified, pushes)
      {
        if k < |mid.forwarded| {
          assert r.forwarded[k] == mid.forwarded[k];
          assert ForwardedFrom(appDevice, mid.forwarded[k], s.lastModified, init);
          var i :| 0 <= i < |init| && IsLiveNote(init[i]) && Newer(init[i].modified.value, s.lastModified)
                   && init[i].body == Some(mid.forwarded[k])
                   && init[i].title.Some? && !Contains(init[i].title.value, Signature(appDevice));
          assert pushes[i] == init[i];
        } else {
          assert pushes[|pushes| - 1] == p;
        }
      }
    }
  }

  /** A request the notifier makes of the push service. */
  datatype Outgoing = SmsRequested(body: string) | NoteRequested(title: string, body: string)

  /** What a notification type is bound to: the two built-in pushers, or a
      configured value that is not a function. */
  datatype Handler = PushNoteHandler | PushAlertHandler | Configured

  class Notifier {
    const appDevice: string
    const decode: string -> Option<Query>          // UrlDecode
    const handlers: map<string, Handler>
    var lastModified: Option<real>
    var stopEventCallbackCount: int
    var stopped: bool                              // the stop event is set
    ghost var commands: seq<string>                // published on the command topic
    ghost var requests: seq<Outgoing>              // asked of the push service

    /** The configured notification types, then "note" and "alert" bound to
      the built-in pushers. */
    constructor (appDevice: string, decode: string -> Option<Query>, accept: set<string>)
      ensures this.appDevice == appDevice && this.decode == decode
      ensures handlers.Keys == accept + {"note", "alert"}
      ensures handlers["note"] == PushNoteHandler && handlers["alert"] == PushAlertHandler
      ensures forall k :: k in handlers && k != "note" && k != "alert" ==> handlers[k] == Configured
      ensures lastModified.None? && stopEventCallbackCount == 0 && !stopped
      ensures commands == [] && requests == []
    {
      this.appDevice := appDevice;
      this.decode := decode;
      handlers := (map k | k in accept :: Configured)["note" := PushNoteHandler]["alert" := PushAlertHandler];
      lastModified := None;
      stopEventCallbackCount := 0;
      stopped := false;
      commands := [];
      requests := [];
    }

    /** ForwardMessage: the body, unchanged, goes to the command topic exactly
      when the note is not the notifier's own and its lower-cased decoding
      has a command's shape. */
    method ForwardMessage(title: string, body: string)
      modifies this`commands
      ensures commands == old(commands) + (if ForwardVerdict(appDevice, decode, title, body) == Forward then [body] else [])
    {
      if Contains(title, Signature(appDevice)) {
        return;
      }
      var d := decode(Lower(body));
      if d.None? {
        return;
      }
      var forward := false;
      if "node" in d.value && "cmd" in d.value && "r" in d.value && "s" in d.value {
        forward := true;
      } else if "node" in d.value && "cmd" in d.value && "v" in d.value && "s" in d.value {
        forward := true;
      } else if "get" in d.value && First(d.value, "get") == "report" {
        forward := true;
      }
      if forward {
        commands := commands + [body];
      }
    }

    /** CallbackInbound: a stream message that is a dict with a type and a
      subtype makes the notifier walk the history the service returns and
      forward the qualifying notes, moving the watermark as it goes. */
    method CallbackInbound(data: Option<set<string>>, pushes: seq<Push>) returns (raised: Option<Error>)
      modifies this`lastModified, this`commands
      ensures !(data.Some? && "type" in data.value && "subtype" in data.value) ==>
                raised.None? && lastModified == old(lastModified) && commands == old(commands)
      ensures data.Some? && "type" in data.value && "subtype" in data.value ==>
                Pass(lastModified, commands, raised) == Inbound(appDevice, decode, Pass(old(lastModified), old(commands), None), pushes)
    {
      raised := None;
      if !(data.Some? && "type" in data.value && "subtype" in data.value) {
        return;
      }
      ghost var start := Pass(lastModified, commands, None);
      var i := 0;
      while i < |pushes|
        invariant 0 <= i <= |pushes|
        invariant Pass(lastModified, commands, None) == Inbound(appDevice, decode, start, pushes[..i])
      {
        var push := pushes[i];
        assert pushes[..i + 1][..i] == pushes[..i];
        if Qualifies(push, lastModified) {
          lastModified := push.modified;
          if push.title.None? || push.body.None? {
            raised := Some(MissingKey(if push.title.None? then "title" else "body"));
            RaisedIsFinal(appDevice, decode, start, pushes, i + 1);
            return;
          }
          ForwardMessage(push.title.value, push.body.value);
        }
        i := i + 1;
      }
      assert pushes[..i] == pushes;
    }

    /** PushAlert: a text message carrying the body. A missing body raises
      KeyError; failures of the service itself are swallowed. */
    method PushAlert(data: Query) returns (raised: Option<Error>)
      modifies this`requests
      ensures "body" !in data ==> raised == Some(MissingKey("body")) && requests == old(requests)
      ensures "body" in data ==> raised.None? && requests == old(requests) + [SmsRequested(First(data, "body"))]
    {
      if "body" !in data {
        return Some(MissingKey("body"));
      }
      requests := requests + [SmsRequested(First(data, "body"))];
      raised := None;
    }

    /** PushNote: a note signed with the application device's signature. Every
      failure, a missing title or body included, is swallowed. */
    method PushNote(data: Query)
      modifies this`requests
      ensures "title" in data && "body" in data ==>
                requests == old(requests) + [NoteRequested(NoteTitle(appDevice, First(data, "title")), First(data, "body"))]
      ensures !("title" in data && "body" in data) ==> requests == old(requests)
    {
      if "title" in data && "body" in data {
        requests := requests + [NoteRequested(NoteTitle(appDevice, First(data, "title")), First(data, "body"))];
      }
    }

    /** CallbackNotify: the payload's type picks the handler. An undecodable
      payload, a missing type, an unknown type or a KeyError inside the
      handler is only logged; a configured type bound to a value that is not
      a function raises. */
    method CallbackNotify(payload: Option<Query>) returns (raised: Option<Error>)
      modifies this`requests
      ensures var kind := if payload.Some? && "type" in payload.value then First(payload.value, "type") else "";
        if payload.Some? && "type" in payload.value && kind in handlers then
          match handlers[kind]
          case Configured => raised == Some(NotCallable(kind)) && requests == old(requests)
          case PushAlertHandler =>
            raised.None? && requests == old(requests) + (if "body" in payload.value then [SmsRequested(First(payload.value, "body"))] else [])
          case PushNoteHandler =>
            raised.None? && requests == old(requests) +
              (if "title" in payload.value && "body" in payload.value
               then [NoteRequested(NoteTitle(appDevice, First(payload.value, "title")), First(payload.value, "body"))] else [])
        else raised.None? && requests == old(requests)
    {
      raised := None;
      if payload.None? {
        return;
      }
      var d := payload.value;
      if "type" !in d || First(d, "type") !in handlers {
        return;
      }
      var kind := First(d, "type");
      match handlers[kind]
      case Configured =>
        raised := Some(NotCallable(kind));
      case PushAlertHandler =>
        var e := PushAlert(d);
      case PushNoteHandler =>
        PushNote(d);
    }

    /** CallbackStopEvent: counts the messages on the configuration topic;
      the first one leaves the notifier running and every later one stops it. */
    method CallbackStopEvent()
      modifies this`stopEventCallbackCount, this`stopped
      ensures stopEventCallbackCount == old(stopEventCallbackCount) + 1
      ensures stopped == (old(stopped) || stopEventCallbackCount > 1)
    {
      stopEventCallbackCount := stopEventCallbackCount + 1;
      if stopEventCallbackCount > 1 {
        stopped := true;
      }
    }
  }
}
