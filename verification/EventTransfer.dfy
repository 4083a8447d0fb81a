/** The way of events and errors from the agent's queues through the polled reply to the controller's publishers. */
module EventTransfer {
  import opened Wrappers
  import opened Sequences
  import opened EventVocabulary

  const LIMIT: nat := 1000

  /** Of the events between two polls, the queue keeps the first LIMIT + 1. */
  function Kept(window: seq<Event>): (kept: seq<Event>)
    ensures |kept| <= LIMIT + 1
  {
    if |window| > LIMIT + 1 then window[..LIMIT + 1] else window
  }

  predicate Overflows(window: seq<Event>) {
    |window| > LIMIT + 1
  }

  /** Everything accepted in the completed windows between two polls. */
  function AllKept(windows: seq<seq<Event>>): seq<Event> {
    if windows == [] then [] else AllKept(windows[..|windows| - 1]) + Kept(windows[|windows| - 1])
  }

  lemma AllKeptSnoc(windows: seq<seq<Event>>, window: seq<Event>)
    ensures AllKept(windows + [window]) == AllKept(windows) + Kept(window)
  {
    assert (windows + [window])[..|windows|] == windows;
  }

  ghost predicate SomeOverflow(windows: seq<seq<Event>>) {
    exists i :: 0 <= i < |windows| && Overflows(windows[i])
  }

  /** Without overflow nothing is lost. */
  lemma {:induction false} AllKeptIsAll(windows: seq<seq<Event>>)
    requires !SomeOverflow(windows)
    ensures AllKept(windows) == Flatten(windows)
  {
    if windows == [] {
    } else {
      var init := windows[..|windows| - 1];
      assert forall i :: 0 <= i < |init| ==> init[i] == windows[i];
      assert !Overflows(windows[|windows| - 1]);
      AllKeptIsAll(init);
    }
  }

  lemma SomeOverflowSnoc(windows: seq<seq<Event>>, window: seq<Event>)
    ensures SomeOverflow(windows + [window]) <==> SomeOverflow(windows) || Overflows(window)
  {
    var all := windows + [window];
    if i :| 0 <= i < |windows| && Overflows(windows[i]) {
      assert all[i] == windows[i];
    }
    assert all[|windows|] == window;
  }

  /** Events are dropped exactly when some window overflows. */
  lemma {:induction false} Dropped(windows: seq<seq<Event>>)
    ensures |AllKept(windows)| <= |Flatten(windows)|
    ensures |AllKept(windows)| < |Flatten(windows)| <==> SomeOverflow(windows)
  {
    if windows == [] {
    } else {
      var init, last := windows[..|windows| - 1], windows[|windows| - 1];
      Dropped(init);
      assert windows == init + [last];
      SomeOverflowSnoc(init, last);
    }
  }

  lemma ErrorsMove(forwarded: seq<ErrorEvent>, reply: seq<ErrorEvent>, queued: seq<ErrorEvent>)
    requires reply == []
    ensures forwarded + queued + [] == forwarded + reply + queued
  {}

  function AllForConnector(connector: Option<int>, events: seq<Event>): (r: seq<Event>)
    ensures |r| == |events|
  {
    seq(|events|, i requires 0 <= i < |events| => ForConnector(connector, events[i]))
  }

  lemma AllForConnectorAppend(connector: Option<int>, xs: seq<Event>, ys: seq<Event>)
    ensures AllForConnector(connector, xs + ys) == AllForConnector(connector, xs) + AllForConnector(connector, ys)
  {}

  class Transfer {
    const mappings: Mappings // of the controller's RFID reader

    // the agent
    var eventList: seq<Event>
    var errorEventList: seq<ErrorEvent>
    var sizeWarned: bool
    var resets: nat // calls of trigger_reset
    // the reply on its way, and the controller
    var replyVars: seq<Event>
    var replyErrors: seq<ErrorEvent>
    var published: seq<Event>
    var forwarded: seq<ErrorEvent> // raise_error and clear_error calls

    ghost var windows: seq<seq<Event>> // produced between polls that are over
    ghost var window: seq<Event>       // produced since the last poll
    ghost var delivered: seq<Event>
    ghost var producedErrors: seq<ErrorEvent>

    ghost function Produced(): seq<Event>
      reads this
    {
      Flatten(windows) + window
    }

    ghost function Accepted(): seq<Event>
      reads this
    {
      AllKept(windows) + Kept(window)
    }

    ghost predicate Valid()
      reads this
    {
      && eventList == Kept(window)
      && delivered + replyVars == AllKept(windows)
      && published == AllForConnector(mappings.ConnectorId(), delivered)
      && forwarded + replyErrors + errorEventList == producedErrors
      && (sizeWarned <==> SomeOverflow(windows) || Overflows(window))
      && resets == (if sizeWarned then 1 else 0)
      && (forall i :: 0 <= i < |window| ==> Subscribed(window[i]))
      && (forall i :: 0 <= i < |replyVars| ==> Subscribed(replyVars[i]))
    }

    constructor (mappings: Mappings)
      ensures Valid() && this.mappings == mappings && Produced() == [] && producedErrors == []
      ensures delivered == [] && published == []
    {
      this.mappings := mappings;
      eventList, errorEventList, sizeWarned, resets := [], [], false, 0;
      replyVars, replyErrors, published, forwarded := [], [], [], [];
      windows, window, delivered, producedErrors := [], [], [], [];
    }

    /** add_to_event_list. */
    method AddToEventList(e: Event)
      requires Valid() && Subscribed(e)
      modifies this`eventList, this`sizeWarned, this`resets, this`window
      ensures Valid() && window == old(window) + [e] && Produced() == old(Produced()) + [e]
      ensures eventList == old(eventList) + if |old(eventList)| > 1000 then [] else [e]
      ensures resets == old(resets) + if |old(eventList)| > 1000 && !old(sizeWarned) then 1 else 0
    {
      Associative(Flatten(windows), window, [e]);
      window := window + [e];
      if |eventList| > LIMIT {
        if !sizeWarned {
          sizeWarned := true;
          resets := resets + 1;
        }
        return;
      }
      eventList := eventList + [e];
    }

    /** add_to_error_event_list. */
    method AddToErrorEventList(e: ErrorEvent)
      requires Valid()
      modifies this`errorEventList, this`producedErrors
      ensures Valid() && producedErrors == old(producedErrors) + [e]
    {
      producedErrors := producedErrors + [e];
      errorEventList := errorEventList + [e];
    }

    /** retrieve_vars_and_errors: both lists move into the reply at once. The controller polls again
        only after it has dealt with the last reply. */
    method RetrieveVarsAndErrors()
      requires Valid() && replyVars == [] && replyErrors == []
      modifies this`eventList, this`errorEventList, this`replyVars, this`replyErrors, this`windows, this`window
      ensures Valid() && windows == old(windows) + [old(window)] && window == [] && Produced() == old(Produced())
      ensures replyVars == old(eventList) && eventList == []
      ensures replyErrors == old(errorEventList) && errorEventList == []
    {
      ErrorsMove(forwarded, replyErrors, errorEventList);
      EndWindow();
      replyVars, replyErrors := eventList, errorEventList;
      eventList, errorEventList := [], [];
    }

    /** With nothing left in the reply, a poll ends the window. It neither produces nor drops events. */
    ghost method EndWindow()
      requires delivered + replyVars == AllKept(windows) && replyVars == []
      modifies this`windows, this`window
      ensures windows == old(windows) + [old(window)] && window == []
      ensures delivered + Kept(old(window)) == AllKept(windows) && Produced() == old(Produced())
      ensures SomeOverflow(windows) <==> old(SomeOverflow(windows) || Overflows(window))
    {
      AllKeptSnoc(windows, window);
      FlattenSnoc(windows, window);
      SomeOverflowSnoc(windows, window);
      windows, window := windows + [window], [];
    }

    /** One round of the controller's ready loop over a reply: variables first, then errors. */
    method DispatchReply()
      requires Valid()
      modifies this`replyVars, this`replyErrors, this`published, this`forwarded, this`delivered
      ensures Valid() && replyVars == [] && replyErrors == []
      ensures delivered == old(delivered) + old(replyVars)
      ensures published == old(published) + AllForConnector(mappings.ConnectorId(), old(replyVars))
      ensures forwarded == old(forwarded) + old(replyErrors)
    {
      PublishVars(replyVars);
      ForwardErrors(replyErrors);
      AllForConnectorAppend(mappings.ConnectorId(), delivered, replyVars);
      delivered := delivered + replyVars;
      replyVars, replyErrors := [], [];
    }

    /** An event as it is published: an RFID token gets the mapped connector unless it names connectors. */
    method Filled(e: Event) returns (filled: Event)
      ensures filled == ForConnector(mappings.ConnectorId(), e)
    {
      var value := e.value;
      if e.interface == RfidTokenProvider && value.Token? {
        var mapping := mappings.implementation;
        if mapping.None? {
          mapping := mappings.ofModule;
        }
        if mapping.Some? {
          var connectorId := mapping.value.connector.ValueOr(mapping.value.evse);
          if value.connectors.None? {
            value := value.(connectors := Some([connectorId]));
          }
        }
      }
      filled := e.(value := value);
    }

    method PublishVars(events: seq<Event>)
      requires forall k :: 0 <= k < |events| ==> Subscribed(events[k])
      modifies this`published
      ensures published == old(published) + AllForConnector(mappings.ConnectorId(), events)
    {
      for i := 0 to |events|
        invariant published == old(published) + AllForConnector(mappings.ConnectorId(), events[..i])
      {
        if HasPublisher(events[i]) {
          var e := Filled(events[i]);
          published := published + [e];
        }
        assert events[..i + 1] == events[..i] + [events[i]];
        AllForConnectorAppend(mappings.ConnectorId(), events[..i], [events[i]]);
      }
      assert events[..|events|] == events;
    }

    method ForwardErrors(events: seq<ErrorEvent>)
      modifies this`forwarded
      ensures forwarded == old(forwarded) + events
    {
      for i := 0 to |events|
        invariant forwarded == old(forwarded) + events[..i]
      {
        if events[i].Raise? {
          forwarded := forwarded + [Raise(events[i].error)];
        }
        if events[i].Clear? {
          forwarded := forwarded + [Clear(events[i].error)];
        }
      }
    }

    /** Conservation. Accepted events are published, in the reply, or queued: none twice, none lost, none out of
        order. While the queue has not overflowed, what is published is a prefix of what was produced. */
    lemma Conservation()
      requires Valid()
      ensures Accepted() == delivered + replyVars + eventList
      ensures published == AllForConnector(mappings.ConnectorId(), delivered)
      ensures !sizeWarned ==> Accepted() == Produced() && delivered <= Produced()
      ensures producedErrors == forwarded + replyErrors + errorEventList
    {
      if !sizeWarned {
        AllKeptIsAll(windows);
        assert Produced() == delivered + (replyVars + window);
      }
    }

    /** Event by event, what is published is what was delivered, in the same order. Only an RFID token that names no
        connectors is changed, if the implementation or, failing that, the module has a mapping: it then names exactly
        the mapped connector, or the EVSE if the mapping has none. */
    lemma PublishedAsDelivered()
      requires Valid()
      ensures |published| == |delivered|
      ensures forall i :: 0 <= i < |delivered| ==>
                var d, p := delivered[i], published[i];
                && p.interface == d.interface && p.variable == d.variable
                && (d.interface != RfidTokenProvider || d.value.Opaque? || d.value.connectors.Some? ==> p == d)
                && (d.interface == RfidTokenProvider && d.value.Token? && d.value.connectors.None? ==>
                      && p.value.Token? && p.value.token == d.value.token
                      && p.value.connectors ==
                         match (mappings.implementation, mappings.ofModule)
                         case (Some(m), _) => Some([m.connector.ValueOr(m.evse)])
                         case (None, Some(m)) => Some([m.connector.ValueOr(m.evse)])
                         case (None, None) => None)
    {
      forall i | 0 <= i < |delivered| ensures published[i] == ForConnector(mappings.ConnectorId(), delivered[i]) {}
    }

    /** The queue holds the first 1001 events since the last poll. */
    lemma QueueKeepsFirst()
      requires Valid()
      ensures eventList == if |window| <= 1001 then window else window[..1001]
    {}

    /** The queue is bounded, and there is one reset if and only if some event was dropped. */
    lemma OneReset()
      requires Valid()
      ensures |eventList| <= 1001
      ensures resets <= 1 && (resets == 1 <==> |Accepted()| < |Produced()|)
    {
      Dropped(windows);
    }
  }
}
