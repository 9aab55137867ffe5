/** Contention detection on the events that a view shows at one moment. */
module Detectors {
  import opened Recency
  import opened Views
  import opened Contentions

  class ContentionDetector {
    const view: View
    const window: int
    const threshold: int

    constructor (view: View, window: int, threshold: int)
      requires window > 0 && threshold > 0
      ensures this.view == view && this.window == window && this.threshold == threshold
    {
      this.view, this.window, this.threshold := view, window, threshold;
    }

    /** The events in the window, in order. */
    method RecentContentions(now: int) returns (recent: seq<Contention>)
      requires view.Valid()
      ensures IsWindow(view.shown.contentions, now - window, recent)
    {
      recent := RecentWindow(view.state.contentions.Elements(), now - window);
    }

    /** Purges the view and takes the window of what is left. */
    method Refresh(now: int) returns (recent: seq<Contention>)
      requires view.Valid()
      modifies view
      ensures view.Valid() && view.shown == Forget(old(view.shown), Cutoff(now, view.gossipTTL))
      ensures IsWindow(view.shown.contentions, now - window, recent)
    {
      view.PurgeExpired(now);
      recent := RecentContentions(now);
    }

    /** The starved groups first, then the deadlocked pairs, of the events that are neither purged nor outside the window. */
    method Detect(now: int) returns (issues: seq<Issue>, ghost recent: seq<Contention>)
      requires view.Valid()
      modifies view
      ensures view.Valid() && view.shown == Forget(old(view.shown), Cutoff(now, view.gossipTTL))
      ensures IsWindow(view.shown.contentions, now - window, recent)
      ensures exists n: nat :: Analyzed(recent, threshold, issues, n)
    {
      var found := Refresh(now);
      recent := found;
      issues := Analyze(found, threshold);
    }
  }
}
