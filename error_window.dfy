/** The sliding window of error instants behind the error rate: instants
    are appended as errors happen, and the leading ones older than the
    window are trimmed off. The clock is the parameter `now`
    (nanoseconds). */
module ErrorWindowModel {
  import opened Common

  /** The window the monitor creates. */
  const MonitorWindow: int := 5 * Minute

  predicate Sorted(s: seq<int>)
  {
    forall i, j :: 0 <= i < j < |s| ==> s[i] <= s[j]
  }

  /** The length of the leading run of instants before the cutoff. */
  function LeadingBefore(s: seq<int>, cutoff: int): (n: nat)
    ensures n <= |s|
    ensures forall j :: 0 <= j < n ==> s[j] < cutoff
    ensures n < |s| ==> s[n] >= cutoff
  {
    if s == [] || s[0] >= cutoff then 0 else 1 + LeadingBefore(s[1..], cutoff)
  }

  /** On a sorted list the trim leaves exactly the instants at or after
      the cutoff, still sorted. */
  lemma {:induction false} TrimSortedKeepsWindow(s: seq<int>, cutoff: int)
    requires Sorted(s)
    ensures var rest := s[LeadingBefore(s, cutoff)..];
      Sorted(rest) && forall x :: x in rest ==> x >= cutoff
    ensures forall j :: 0 <= j < |s| && s[j] >= cutoff ==> j >= LeadingBefore(s, cutoff)
  {
    var n := LeadingBefore(s, cutoff);
    forall x | x in s[n..] ensures x >= cutoff {
      var k :| n <= k < |s| && s[k] == x;
      assert s[n] <= s[k];
    }
  }

  /** Appending an instant no earlier than the others keeps the list
      sorted. */
  lemma AppendLatestSorted(s: seq<int>, now: int)
    requires Sorted(s) && forall x :: x in s ==> x <= now
    ensures Sorted(s + [now])
  {
    forall i, j | 0 <= i < j < |s| + 1 ensures (s + [now])[i] <= (s + [now])[j] {
      if j == |s| {
        assert s[i] in s;
      }
    }
  }

  /** Trimming twice at the same instant trims nothing more. */
  lemma TrimIdempotent(s: seq<int>, cutoff: int)
    ensures LeadingBefore(s[LeadingBefore(s, cutoff)..], cutoff) == 0
  {
  }

  class ErrorWindow {
    var errors: seq<int>
    const window: int

    constructor (window: int)
      ensures errors == [] && this.window == window
    {
      errors := [];
      this.window := window;
    }

    /** Drops the leading instants before now - window. */
    method CleanOldErrors(now: int)
      modifies this`errors
      ensures errors == old(errors)[LeadingBefore(old(errors), now - window)..]
    {
      var cutoff := now - window;
      var i := 0;
      while i < |errors| && errors[i] < cutoff
        invariant 0 <= i <= |errors|
        invariant forall j :: 0 <= j < i ==> errors[j] < cutoff
      {
        i := i + 1;
      }
      assert i == LeadingBefore(errors, cutoff) by {
        LeadingBeforeUnique(errors, cutoff, i);
      }
      if i > 0 {
        errors := errors[i..];
      }
    }

    method AddError(now: int)
      modifies this`errors
      ensures var s := old(errors) + [now];
        errors == s[LeadingBefore(s, now - window)..]
      ensures window >= 0 ==> errors != [] && errors[|errors| - 1] == now
    {
      errors := errors + [now];
      ghost var s := errors;
      CleanOldErrors(now);
      if window >= 0 {
        assert s[|s| - 1] == now;
        assert LeadingBefore(s, now - window) < |s|;
      }
    }

    /** Errors per minute over the window after trimming; None stands for
        the infinite rate a zero window gives. */
    method GetErrorRate(now: int) returns (rate: Option<real>)
      modifies this`errors
      ensures errors == old(errors)[LeadingBefore(old(errors), now - window)..]
      ensures errors == [] ==> rate == Some(0.0)
      ensures errors != [] && window != 0 ==> rate == Some((|errors| as real) / ((window as real) / (Minute as real)))
      ensures errors != [] && window == 0 ==> rate.None?
    {
      CleanOldErrors(now);
      if |errors| == 0 {
        return Some(0.0);
      }
      if window == 0 {
        return None;
      }
      var windowMinutes := (window as real) / (Minute as real);
      return Some((|errors| as real) / windowMinutes);
    }
  }

  /** The first index that is not before the cutoff is the leading run's
      length. */
  lemma {:induction false} LeadingBeforeUnique(s: seq<int>, cutoff: int, i: nat)
    requires i <= |s| && (forall j :: 0 <= j < i ==> s[j] < cutoff) && (i < |s| ==> s[i] >= cutoff)
    ensures i == LeadingBefore(s, cutoff)
  {
    if s != [] && s[0] < cutoff {
      LeadingBeforeUnique(s[1..], cutoff, i - 1);
    }
  }
}
