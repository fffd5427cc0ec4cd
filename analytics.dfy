/** The front end's analytics hook `__lsa(eventName, metadata)`: when the
    app settings enable analytics, it builds a payload from the metadata, the
    event name and the page URL, and once the browser is idle sends it to
    `/__lsa/` by beacon, or by an image request where beacons are missing. The
    query-string and JSON encoding of the payload are not modelled: a request
    carries the payload itself. */
module Analytics {
  import opened Common

  /** The path requests are sent to. */
  const Endpoint := "/__lsa/"

  /** A request to `/__lsa/?__=<payload as JSON>`. */
  datatype Request = Request(path: string, payload: map<string, Val>)

  /** How a request left the page. */
  datatype Sent = Beacon(request: Request) | ImageRequest(request: Request)

  /** Whether `APP_SETTINGS?.collect_analytics` is truthy; `None` stands for
      missing settings. */
  predicate Enabled(settings: Option<map<string, Val>>) {
    settings.Some? && Truthy(Get(settings.value, "collect_analytics"))
  }

  /** `{...metadata, event: eventName, url: href}` */
  function Payload(metadata: map<string, Val>, eventName: string, href: string): (payload: map<string, Val>)
    ensures payload.Keys == metadata.Keys + {"event", "url"}
    ensures payload["event"] == Str(eventName) && payload["url"] == Str(href)
    ensures forall k :: k in metadata && k != "event" && k != "url" ==> payload[k] == metadata[k]
  {
    metadata["event" := Str(eventName)]["url" := Str(href)]
  }

  /** Without metadata the payload holds exactly the event and the URL. */
  lemma {:induction false} MinimalPayload(eventName: string, href: string)
    ensures Payload(map[], eventName, href) == map["event" := Str(eventName), "url" := Str(href)]
  {
  }

  /** The request an idle callback makes for a payload, or none when the
      browser call throws; the exception is caught there. */
  function Dispatch(hasSendBeacon: bool, throws: bool, payload: map<string, Val>): (sent: seq<Sent>)
    ensures |sent| <= 1
    ensures |sent| == 1 <==> !throws
    ensures |sent| == 1 ==> sent[0].request == Request(Endpoint, payload) && (sent[0].Beacon? <==> hasSendBeacon)
  {
    if throws then []
    else if hasSendBeacon then [Beacon(Request(Endpoint, payload))]
    else [ImageRequest(Request(Endpoint, payload))]
  }

  /** The page's window, as far as analytics touch it. */
  class Window {
    /** `window.APP_SETTINGS`, `None` when undefined. */
    var settings: Option<map<string, Val>>
    /** `window.location.href` */
    var href: string
    /** Whether `navigator.sendBeacon` exists. */
    const hasSendBeacon: bool
    /** Whether `window.__lsa` has been set. */
    var registered: bool
    /** Payloads waiting for an idle callback, oldest first. */
    var pending: seq<map<string, Val>>
    /** Requests sent, oldest first. */
    var sent: seq<Sent>

    constructor(settings: Option<map<string, Val>>, href: string, hasSendBeacon: bool)
      ensures this.settings == settings && this.href == href && this.hasSendBeacon == hasSendBeacon
      ensures !registered && pending == [] && sent == []
    {
      this.settings := settings;
      this.href := href;
      this.hasSendBeacon := hasSendBeacon;
      registered := false;
      pending := [];
      sent := [];
    }

    /** `registerAnalytics` */
    method RegisterAnalytics()
      modifies this
      ensures registered
      ensures settings == old(settings) && href == old(href) && pending == old(pending) && sent == old(sent)
    {
      registered := true;
    }

    /** `logEvent`: nothing when analytics are disabled; otherwise the
        payload waits for the browser's next idle moment. */
    method LogEvent(eventName: string, metadata: map<string, Val>)
      modifies this
      ensures !Enabled(settings) ==> pending == old(pending)
      ensures Enabled(settings) ==> pending == old(pending) + [Payload(metadata, eventName, href)]
      ensures settings == old(settings) && href == old(href) && registered == old(registered) && sent == old(sent)
    {
      if !Enabled(settings) {
        return;
      }
      pending := pending + [Payload(metadata, eventName, href)];
    }

    /** The idle callback for the oldest waiting payload: one request, by
        beacon if the browser has it, else by image; `throws` says whether
        the browser call throws, and then nothing is sent and nothing escapes. */
    method IdleCallback(throws: bool)
      requires |pending| > 0
      modifies this
      ensures pending == old(pending)[1..]
      ensures sent == old(sent) + Dispatch(hasSendBeacon, throws, old(pending)[0])
      ensures settings == old(settings) && href == old(href) && registered == old(registered)
    {
      var payload := pending[0];
      pending := pending[1..];
      var request := Request(Endpoint, payload);
      if throws {
        return;
      }
      if hasSendBeacon {
        sent := sent + [Beacon(request)];
      } else {
        sent := sent + [ImageRequest(request)];
      }
    }
  }

  /** An enabled call followed by its idle callback sends exactly one
      request, carrying the payload, unless the browser call throws. */
  lemma {:induction false} OneRequestPerEvent(settings: map<string, Val>, href: string, hasSendBeacon: bool, throws: bool,
                           eventName: string, metadata: map<string, Val>)
    requires Enabled(Some(settings))
    ensures var sent := Dispatch(hasSendBeacon, throws, Payload(metadata, eventName, href));
      (throws ==> sent == [])
      && (!throws ==>
            |sent| == 1 && sent[0].request.path == Endpoint
            && sent[0].request.payload["event"] == Str(eventName) && sent[0].request.payload["url"] == Str(href))
  {
  }
}
