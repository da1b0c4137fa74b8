/** The user dashboard's send handler (UserDashboard.js): no backend call, just
    a locally made ticket number, a confirmation line and a history entry.
    `Date.now()` and the `Math.random()` draw come in as parameters. */
module UserDashboard {
  import JsString
  import JsNumber
  import JsArray

  /** A "Your Recent Queries" entry: `{ id, q, ticketId }`. */
  datatype HistoryEntry = HistoryEntry(id: int, q: string, ticketId: string)

  datatype State = State(query: string, status: string, history: seq<HistoryEntry>)

  const TicketBase: int := 100000
  const TicketSpan: int := 900000
  const ConfirmationPrefix: string := "Your query has been sent to the admin. Ticket "

  /** `Math.random() * 900000` rounded down: `Math.random()` lies in [0, 1), so
      the offset lies in [0, 900000). */
  type Draw = d: int | 0 <= d < 900000

  /** The `useState` initial values: empty query, status and history. */
  function Init(): (s: State)
    ensures s.query == "" && s.status == "" && s.history == []
    ensures WellFormedHistory(s.history)
  {
    State("", "", [])
  }

  /** `Math.floor(100000 + Math.random() * 900000)`: always six digits. */
  function TicketNumber(d: Draw): (n: nat)
    ensures TicketBase <= n < TicketBase + TicketSpan
    ensures JsNumber.Pow10(5) <= n < JsNumber.Pow10(6)
  {
    TicketBase + d
  }

  /** `#${...}`: a hash sign then the decimal digits of the ticket number. */
  function TicketId(d: Draw): (t: string)
    ensures |t| == 7 && t[0] == '#'
    ensures JsNumber.IsCanonicalDecimal(t[1..])
    ensures JsNumber.DecimalValue(t[1..]) == TicketNumber(d)
  {
    var digits := JsNumber.ToDecimal(TicketNumber(d));
    JsNumber.ToDecimalLength(TicketNumber(d), 6);
    JsNumber.DecimalValueOfToDecimal(TicketNumber(d));
    assert ("#" + digits)[1..] == digits;
    "#" + digits
  }

  /** Different draws give different tickets, and every six-digit number is the
      ticket of some draw. */
  lemma TicketIdIsBijective(d1: Draw, d2: Draw, n: int)
    ensures TicketId(d1) == TicketId(d2) <==> d1 == d2
    ensures TicketBase <= n < TicketBase + TicketSpan ==>
      JsNumber.DecimalValue(TicketId((n - TicketBase) as Draw)[1..]) == n
  {
    if TicketId(d1) == TicketId(d2) {
      assert TicketNumber(d1) == TicketNumber(d2);
    }
  }

  function Confirmation(ticketId: string): (m: string)
    ensures |m| == |ConfirmationPrefix| + |ticketId| + 1
    ensures m[..|ConfirmationPrefix|] == ConfirmationPrefix
    ensures m[|ConfirmationPrefix|..|m| - 1] == ticketId
    ensures m[|m| - 1] == '.'
  {
    ConfirmationPrefix + ticketId + "."
  }

  /** The ticket can be read back out of the confirmation line: characters 46
      to 52 of it. */
  lemma TicketFromConfirmation(d: Draw)
    ensures |Confirmation(TicketId(d))| == 54
    ensures Confirmation(TicketId(d))[46..53] == TicketId(d)
  {
    assert |ConfirmationPrefix| == 46;
  }

  /** `handleSend`: a blank query (nothing but whitespace) is ignored; otherwise
      show the confirmation for a fresh ticket, put `{ now, trimmed query,
      ticket }` in front of the history and clear the query box. */
  function HandleSend(s: State, now: int, draw: Draw): (s': State)
    ensures JsString.AllWhitespace(s.query) ==> s' == s
    ensures !JsString.AllWhitespace(s.query) ==>
      && |s'.history| == |s.history| + 1
      && s'.history[1..] == s.history
      && s'.history[0].id == now
      && JsString.IsTrimOf(s.query, s'.history[0].q)
      && s'.history[0].q != ""
      && s'.history[0].ticketId == TicketId(draw)
      && s'.status == Confirmation(TicketId(draw))
      && s'.query == ""
  {
    var q := JsString.Trim(s.query);
    if q == "" then s
    else
      var ticketId := TicketId(draw);
      s.(status := Confirmation(ticketId),
         history := [HistoryEntry(now, q, ticketId)] + s.history,
         query := "")
  }

  /** Everything that can happen to the dashboard. `EditQuery` and `EditStatus`
      are the inline `onChange` setters of the input box and the status area. */
  datatype Event =
    | Send(now: int, draw: Draw)
    | EditQuery(text: string)
    | EditStatus(text: string)

  function Apply(s: State, e: Event): (s': State)
    ensures e.EditQuery? ==> s' == s.(query := e.text)
    ensures e.EditStatus? ==> s' == s.(status := e.text)
  {
    match e
    case Send(now, draw) => HandleSend(s, now, draw)
    case EditQuery(text) => s.(query := text)
    case EditStatus(text) => s.(status := text)
  }

  function Run(s: State, events: seq<Event>): State
    decreases |events|
  {
    if events == [] then s else Run(Apply(s, events[0]), events[1..])
  }

  /** Every ticket in a reachable history is a well-formed seven-character
      ticket, and every question in it is non-empty. */
  predicate WellFormedHistory(h: seq<HistoryEntry>)
  {
    forall i :: 0 <= i < |h| ==>
      && |h[i].ticketId| == 7 && h[i].ticketId[0] == '#'
      && JsNumber.IsCanonicalDecimal(h[i].ticketId[1..])
      && h[i].q != ""
  }

  lemma PrependKeepsWellFormed(e: HistoryEntry, h: seq<HistoryEntry>)
    requires WellFormedHistory([e]) && WellFormedHistory(h)
    ensures WellFormedHistory([e] + h)
  {
    var h' := [e] + h;
    forall i | 0 < i < |h'| ensures h'[i] == h[i - 1] {
    }
  }

  /** The event is a send the dashboard does not ignore: its query is not blank. */
  predicate Accepts(s: State, e: Event)
  {
    e.Send? && !JsString.AllWhitespace(s.query)
  }

  /** How many sends along a run of events are accepted. */
  function Accepted(s: State, events: seq<Event>): (n: nat)
    ensures n <= |events|
    decreases |events|
  {
    if events == [] then 0
    else (if Accepts(s, events[0]) then 1 else 0) + Accepted(Apply(s, events[0]), events[1..])
  }

  /** An accepted send puts exactly one entry, the newest, in front of the
      history; every other event leaves the history as it is. */
  lemma ApplyExtendsHistory(s: State, e: Event)
    ensures JsArray.PrependedTo(Apply(s, e).history, s.history)
    ensures |Apply(s, e).history| == |s.history| + (if Accepts(s, e) then 1 else 0)
    ensures Accepts(s, e) ==>
      && Apply(s, e).history[0].id == e.now
      && JsString.IsTrimOf(s.query, Apply(s, e).history[0].q)
      && Apply(s, e).history[0].ticketId == TicketId(e.draw)
    ensures !Accepts(s, e) ==> Apply(s, e).history == s.history
  {
    if e.Send? {
      var t := HandleSend(s, e.now, e.draw);
      assert Apply(s, e) == t;
      if Accepts(s, e) {
        assert t.history == [t.history[0]] + s.history;
      }
    }
  }

  lemma ApplyKeepsWellFormed(s: State, e: Event)
    requires WellFormedHistory(s.history)
    ensures WellFormedHistory(Apply(s, e).history)
  {
    var t := Apply(s, e);
    if |t.history| > |s.history| {
      assert t.history == [t.history[0]] + s.history;
      PrependKeepsWellFormed(t.history[0], s.history);
    }
  }

  /** History only ever grows at the front: the history before any run of events
      is a suffix of the history after it, and it has grown by exactly the
      number of accepted sends. */
  lemma {:induction false} HistoryIsAppendOnly(s: State, events: seq<Event>)
    ensures JsArray.PrependedTo(Run(s, events).history, s.history)
    ensures |Run(s, events).history| == |s.history| + Accepted(s, events)
    decreases |events|
  {
    if events != [] {
      var t := Apply(s, events[0]);
      var h := Run(t, events[1..]).history;
      ApplyExtendsHistory(s, events[0]);
      HistoryIsAppendOnly(t, events[1..]);
      assert Run(s, events).history == h;
      JsArray.PrependedTrans(h, t.history, s.history);
    }
  }

  /** Every entry a run of events leaves in the history carries a well-formed
      seven-character ticket and a non-empty question. */
  lemma {:induction false} HistoryStaysWellFormed(s: State, events: seq<Event>)
    requires WellFormedHistory(s.history)
    ensures WellFormedHistory(Run(s, events).history)
    decreases |events|
  {
    if events != [] {
      ApplyKeepsWellFormed(s, events[0]);
      HistoryStaysWellFormed(Apply(s, events[0]), events[1..]);
    }
  }

}
