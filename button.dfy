/** The bypass watcher: on every press of the bypass button it cancels a
    standing bypass grant, and tells the server only when there was one. */
module Button {
  import opened Shared
  import Snapshot

  /** What one button edge leaves behind: the bypass flag, whether the
      cancellation notice was sent to the server, and the task's status. */
  datatype EdgeOutcome = EdgeOutcome(bypass: bool, noticeSent: bool, status: Status)

  /** One button edge handled with the bypass flag at `bypass`; `noticeFails`
      says whether the server call would fail. */
  function OnEdge(bypass: bool, noticeFails: bool): (e: EdgeOutcome)
    ensures !e.bypass
    ensures e.noticeSent == bypass
    ensures e.status == Err <==> bypass && noticeFails
  {
    if bypass then EdgeOutcome(false, true, if noticeFails then Err else Ok)
    else EdgeOutcome(false, false, Ok)
  }

  /** Spurious presses are harmless: once the flag is clear, another edge
      sends nothing and cannot fail. A first edge whose notice failed has
      already ended the task, so it has no second edge. */
  lemma SecondEdgeIsQuiet(bypass: bool, firstFails: bool, secondFails: bool)
    requires !(bypass && firstFails)
    ensures OnEdge(OnEdge(bypass, firstFails).bypass, secondFails) == EdgeOutcome(false, false, Ok)
  {
  }

  /** The `deactivate_bypass_mode` task. It holds the shared bypass flag and
      nothing else it could change. */
  class BypassWatcher {
    const shouldBypass: AtomicFlag

    constructor (shouldBypass: AtomicFlag)
      ensures this.shouldBypass == shouldBypass
    {
      this.shouldBypass := shouldBypass;
    }

    /** One falling edge of the button: `swap(false)`, then the notice only if
        the flag was set. A failing notice is returned as an error, with the
        flag already cleared. */
    method HandleEdge(noticeFails: bool) returns (noticeSent: bool, status: Status)
      modifies shouldBypass
      ensures EdgeOutcome(shouldBypass.value, noticeSent, status) == OnEdge(old(shouldBypass.value), noticeFails)
    {
      var wasBypassed := shouldBypass.Swap(false);
      if wasBypassed {
        noticeSent := true;
        status := if noticeFails then Err else Ok;
      } else {
        noticeSent := false;
        status := Ok;
      }
    }
  }

  /** A button edge while the reporting loop shares the flag: the flag is
      cleared, and the loop's allowance, pulse counter and valve are as they
      were. */
  method EdgeBesideReporter(watcher: BypassWatcher, reporter: Snapshot.Reporter, noticeFails: bool)
    returns (noticeSent: bool, status: Status)
    requires watcher.shouldBypass == reporter.shouldBypass && reporter.Valid()
    modifies watcher.shouldBypass
    ensures reporter.Valid() && !reporter.shouldBypass.value
    ensures noticeSent == old(reporter.shouldBypass.value)
    ensures reporter.allowance == old(reporter.allowance) && reporter.counter.ticks == old(reporter.counter.ticks)
    ensures reporter.valve.Levels() == old(reporter.valve.Levels())
  {
    noticeSent, status := watcher.HandleEdge(noticeFails);
  }
}
