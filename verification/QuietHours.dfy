/** The quiet-hours release time against its definition: the first moment outside a window that repeats
    every day (crates/persistence/src/notification_delivery.rs). */
module QuietHours {
  import opened Tables
  import opened Notifications

  predicate InDay(w: Window) { 0 <= w.start < DAY && 0 <= w.end < DAY }

  predicate QuietAt(w: Window, at: int) { Quiet(w, SecondOfDay(at)) }

  /** Within one day of `now` the second of the day advances by one and wraps at midnight. */
  lemma SecondLater(now: int, d: nat)
    requires d <= DAY
    ensures SecondOfDay(now + d) ==
      if SecondOfDay(now) + d < DAY then SecondOfDay(now) + d else SecondOfDay(now) + d - DAY
  {
    var day, second := now / DAY, SecondOfDay(now);
    assert now + d == DAY * day + (second + d);
    if second + d < DAY { DayPart(now + d, day, second + d); }
    else { DayPart(now + d, day + 1, second + d - DAY); }
  }

  lemma DayPart(at: int, day: int, second: int)
    requires at == DAY * day + second && 0 <= second < DAY
    ensures SecondOfDay(at) == second
  {
    assert DAY * (at / DAY) + at % DAY == at;
    assert DAY * (at / DAY - day) == second - at % DAY;
  }

  /** For distinct in-day bounds, wrapping or not, and any signed `now`: the release time is the least
      instant at or after `now` outside the window, less than one day ahead, and absent exactly when
      `now` is itself outside. */
  lemma ReleaseIsFirstMomentOutside(w: Window, now: int)
    requires InDay(w) && w.start != w.end
    ensures ReleaseIn(w, now).None? <==> !QuietAt(w, now)
    ensures ReleaseIn(w, now).Some? ==>
      && now < ReleaseIn(w, now).value < now + DAY
      && !QuietAt(w, ReleaseIn(w, now).value)
      && forall t | now <= t < ReleaseIn(w, now).value :: QuietAt(w, t)
  {
    if QuietAt(w, now) {
      var release := ReleaseIn(w, now).value;
      SecondLater(now, release - now);
      forall t | now <= t < release ensures QuietAt(w, t) {
        SecondLater(now, t - now);
      }
    }
  }

  /** Equal bounds mean always quiet, yet a release time is still given: it is the next time at which
      the day reaches the bound, inside the window. So the release escapes the window exactly when the bounds differ. */
  lemma ReleaseEscapesExactlyDistinctBounds(w: Window, now: int)
    requires InDay(w) && ReleaseIn(w, now).Some?
    ensures !QuietAt(w, ReleaseIn(w, now).value) <==> w.start != w.end
    ensures SecondOfDay(ReleaseIn(w, now).value) == w.end && now < ReleaseIn(w, now).value <= now + DAY
  {
    SecondLater(now, ReleaseIn(w, now).value - now);
  }

  /** The whole decision, for rows that the schema's checks allow: who waits, and until when. */
  lemma AdmissionDefersExactlyQuietChats(c: Candidate, n: Notice, now: int)
    requires c.policy.Custom? ==>
      && c.startMinute.Some? && c.endMinute.Some?
      && 0 <= c.startMinute.value < 1440 && 0 <= c.endMinute.value < 1440
      && c.startMinute != c.endMinute
    requires !c.policy.Custom? ==> c.startMinute.None? && c.endMinute.None?
    requires n.quietHint.Some? ==> InDay(n.quietHint.value) && n.quietHint.value.start != n.quietHint.value.end
    ensures ReleaseTime(c, n, now).Ok?
    ensures var window := if c.policy.Disabled? then None else if c.policy.Inherit? then n.quietHint
                          else Some(Window(60 * c.startMinute.value, 60 * c.endMinute.value));
      var held := Deliverable(c) && !(n.high && c.bypass) && window.Some? && QuietAt(window.value, now);
      && (Verdict(c, ReleaseTime(c, n, now).value).Deferred? <==> held)
      && (ReleaseTime(c, n, now).value.Some? <==> held)
      && (held ==> var at := ReleaseTime(c, n, now).value.value;
                   now < at < now + DAY && !QuietAt(window.value, at)
                   && forall t | now <= t < at :: QuietAt(window.value, t))
  {
    match QuietWindow(c, n.quietHint)
    case Ok(Some(w)) => ReleaseIsFirstMomentOutside(w, now);
    case _ =>
  }
}
