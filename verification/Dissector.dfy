/** The HTTP dissector: it accepts a packet when a parser without callbacks gets through it, and prints
    it by a second run with callbacks. */
module Dissector {
  import opened ParserTypes
  import opened Stream
  import opened Invariant
  import opened Cursor
  import opened Grammar
  import opened Count
  import opened Passes
  import opened HttpParserObject

  /** The parts of a packet that the dissector looks at; the data is None when the pointer is null. */
  datatype Bytes = None | Some(data: string)
  datatype Packet = NullPacket | Packet(data: Bytes, protocol: int, hasSession: bool)

  predicate WellFormed(packet: Packet) {
    packet.Packet? && packet.data.Some? && packet.protocol == 0 && packet.hasSession
  }

  /** The callbacks that print; all of them return 0. */
  const PRINTING: set<Hook> := {OnUrl, OnStatus, OnHeaderField, OnHeaderValue, OnBody}

  const OBLIGING: History -> Verdict := (h: History) => Proceed

  ghost function Target(data: string): Goal {
    Aim(Initial(HttpBoth), Nothing, 0, data, NEVER)
  }

  /** The packet starts with what a parser accepts, within the header limit. */
  ghost predicate Acceptable(data: string) {
    data == "" || (!Target(data).run.why.Failed? && Target(data).tally.Within?)
  }

  /** Where the header count passes the limit, or else where the reference run ends. */
  predicate Ending(p: Parser, rest: string, goal: Goal) {
    if goal.stop.Where? then p == goal.stop.c.p.(errno := HpeHeaderOverflow) && rest == goal.stop.rest
    else p == goal.run.c.p && rest == goal.run.rest
  }

  /** A run of a fresh parser on the packet, with callbacks that return 0. */
  method Run(data: string, hooks: set<Hook>) returns (parser: HttpParser, app: Application, n: nat)
    requires OnHeadersComplete !in hooks
    ensures fresh(parser) && fresh(app) && app.hooks == hooks
    ensures parser.fields.errno.HpeOk? <==> Acceptable(data)
    ensures data != "" ==> n <= |data| && Ending(parser.fields, data[n..], Target(data))
    ensures parser.fields.errno.HpeOk? && data != "" ==> Merged(app.signals) == Target(data).run.c.seen
    ensures data == "" ==> n == 0 && parser.fields == Initial(HttpBoth) && app.signals == Nothing
  {
    hide Feed, Inv, Opened, Spoken, Counts, OverAt, Bounded, BlocksOf, LacksOpenText;
    parser := new HttpParser(HttpBoth);
    app := new Application(hooks, NEVER, OBLIGING);
    n := parser.Execute(app, data);
  }

  /** http_dissector_handles */
  method Handles(packet: Packet) returns (supported: bool)
    ensures supported <==>
              && packet.Packet? && packet.data.Some? && packet.protocol == 0 && packet.hasSession
              && Acceptable(packet.data.data)
  {
    if !WellFormed(packet) { return false; }
    var parser, app, n := Run(packet.data.data, {});
    supported := parser.fields.errno.HpeOk?;
  }

  /** The callbacks of a history that are installed. */
  function Installed(h: History, hooks: set<Hook>): History {
    match h
    case Nothing => Nothing
    case Then(past, e) => if e.hook in hooks then Then(Installed(past, hooks), e) else Installed(past, hooks)
  }

  /** Merging before or after leaving callbacks out gives the same, once merged. */
  lemma {:induction false} InstalledMerged(h: History, hooks: set<Hook>)
    ensures Merged(Installed(Merged(h), hooks)) == Merged(Installed(h, hooks))
  {
    match h {
      case Nothing =>
      case Then(past, e) =>
        InstalledMerged(past, hooks);
        InstalledPush(Merged(past), e, hooks);
    }
  }

  lemma InstalledPush(t: History, e: Event, hooks: set<Hook>)
    ensures Merged(Installed(Push(t, e), hooks)) ==
            if e.hook in hooks then Push(Merged(Installed(t, hooks)), e) else Merged(Installed(t, hooks))
  {
    if e.Text? && Ends(t, e.hook) && e.hook in hooks {
      PushText(Merged(Installed(t.past, hooks)), e.hook, t.last.text, e.text);
    }
  }

  /** http_dissector_dump: what it prints is what the printing callbacks are given, and they are given what the
      reference run of an accepted packet signals to them. */
  method Dump(packet: Packet) returns (printed: History)
    ensures !(WellFormed(packet) && Acceptable(packet.data.data)) ==> printed == Nothing
    ensures WellFormed(packet) && packet.data.data == "" ==> printed == Nothing
    ensures WellFormed(packet) && Acceptable(packet.data.data) && packet.data.data != "" ==>
              Merged(printed) == Merged(Installed(Target(packet.data.data).run.c.seen,
                                                  {OnUrl, OnStatus, OnHeaderField, OnHeaderValue, OnBody}))
  {
    hide Feed, Ready, Counts, OverAt, BlocksOf;
    var supported := Handles(packet);
    if !supported { return Nothing; }
    var parser, app, n := Run(packet.data.data, PRINTING);
    assert parser.fields.errno.HpeOk?;
    printed := Installed(app.signals, PRINTING);
    InstalledMerged(app.signals, PRINTING);
  }

  /** The two runs of the dissector, the one without callbacks and the one with those that print, end with the same
      fields, the same errno among them, at the same byte. */
  method Observe(data: string) returns (silent: HttpParser, printing: HttpParser, m: nat, n: nat)
    ensures silent.fields == printing.fields && m == n
  {
    hide Feed, Counts, OverAt, BlocksOf;
    var app1, app2;
    silent, app1, m := Run(data, {});
    printing, app2, n := Run(data, PRINTING);
    if data != "" {
      assert |data[m..]| == |data[n..]|;
    }
  }
}
