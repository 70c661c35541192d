/** `upload_queue.py`: the text file of dates the web application queues
    for upload, one per line. */
module UploadQueues {
  import opened Common

  /** The queued dates the file's lines stand for: each line stripped,
      blank lines skipped, in file order. */
  function Queued(lines: seq<string>): (r: seq<string>)
    ensures |r| <= |lines|
  {
    if lines == [] then []
    else
      var d := Strip(lines[|lines| - 1]);
      Queued(lines[..|lines| - 1]) + (if d != "" then [d] else [])
  }

  /** Every queued date is the stripped, non-blank text of some line, and
      every such text is queued. */
  lemma {:induction false} QueuedMembers(lines: seq<string>)
    ensures forall d :: d in Queued(lines) <==> d != "" && exists l :: l in lines && Strip(l) == d
  {
    if lines != [] {
      var init := lines[..|lines| - 1];
      QueuedMembers(init);
      assert lines == init + [lines[|lines| - 1]];
    }
  }

  lemma QueuedAppend(lines: seq<string>, more: seq<string>)
    ensures Queued(lines + more) == Queued(lines) + Queued(more)
    decreases |more|
  {
    if more == [] {
      assert lines + more == lines;
    } else {
      assert (lines + more)[..|lines + more| - 1] == lines + more[..|more| - 1];
      QueuedAppend(lines, more[..|more| - 1]);
    }
  }

  /** Queued dates are already stripped and non-blank, so reading them
      back gives them unchanged. */
  lemma {:induction false} QueuedOfQueued(dates: seq<string>)
    requires forall i :: 0 <= i < |dates| ==> dates[i] != "" && Strip(dates[i]) == dates[i]
    ensures Queued(dates) == dates
  {
    if dates != [] {
      QueuedOfQueued(dates[..|dates| - 1]);
    }
  }

  lemma {:induction false} QueuedStripped(lines: seq<string>)
    ensures forall i :: 0 <= i < |Queued(lines)| ==> Queued(lines)[i] != "" && Strip(Queued(lines)[i]) == Queued(lines)[i]
  {
    if lines != [] {
      QueuedStripped(lines[..|lines| - 1]);
      StripIdempotent(lines[|lines| - 1]);
    }
  }

  /** The queued dates other than `date`, in order: what `remove_from_queue`
      writes back. */
  function Without(dates: seq<string>, date: string): (r: seq<string>)
    ensures |r| <= |dates|
  {
    if dates == [] then []
    else Without(dates[..|dates| - 1], date) + (if dates[|dates| - 1] != date then [dates[|dates| - 1]] else [])
  }

  /** `Without` removes every occurrence of `date` and keeps every other
      date, in order. */
  lemma {:induction false} WithoutMembers(dates: seq<string>, date: string)
    ensures date !in Without(dates, date)
    ensures forall d :: d in Without(dates, date) <==> d in dates && d != date
    ensures multiset(Without(dates, date)) == multiset(dates)[date := 0]
  {
    if dates != [] {
      var init := dates[..|dates| - 1];
      WithoutMembers(init, date);
      assert dates == init + [dates[|dates| - 1]];
    }
  }

  /** The list comprehension of `remove_from_queue`: each line stripped,
      kept when it is neither blank nor the removed date. */
  method RemainingDates(current: seq<string>, dateStr: string) returns (remainingDates: seq<string>)
    ensures remainingDates == Without(Queued(current), dateStr)
  {
    remainingDates := [];
    var i := 0;
    while i < |current|
      invariant 0 <= i <= |current|
      invariant remainingDates == Without(Queued(current[..i]), dateStr)
    {
      assert current[..i + 1][..i] == current[..i];
      var line := Strip(current[i]);
      var q := Queued(current[..i]);
      assert Queued(current[..i + 1]) == q + (if line != "" then [line] else []);
      if line != "" {
        assert (q + [line])[..|q|] == q;
      } else {
        assert q + [] == q;
      }
      if line != "" && line != dateStr {
        remainingDates := remainingDates + [line];
      }
      i := i + 1;
    }
    assert current[..i] == current;
  }

  predicate NoDuplicates(s: seq<string>) {
    forall i, j :: 0 <= i < j < |s| ==> s[i] != s[j]
  }

  /** `QUEUE_FILE`: its lines while it exists, and whether the process may
      read and write it (a failing open is caught and reported). */
  class UploadQueue {
    var lines: Option<seq<string>>
    var readable: bool
    var writable: bool

    constructor (lines: Option<seq<string>>, readable: bool, writable: bool)
      ensures this.lines == lines && this.readable == readable && this.writable == writable
    {
      this.lines := lines;
      this.readable := readable;
      this.writable := writable;
    }

    /** `get_queued_dates()`: the queued dates in file order; `[]` when the
        file is missing or cannot be read. */
    function GetQueuedDates(): (r: seq<string>)
      reads this
      ensures lines.None? || !readable ==> r == []
      ensures r != [] ==> lines.Some? && readable
    {
      if lines.None? || !readable then [] else Queued(lines.value)
    }

    /** `add_to_queue(date_str)`: appends the date unless it is already
        queued. A file that cannot be read counts as holding no dates; a
        failing append answers false; a date already queued answers true. */
    method AddToQueue(dateStr: string) returns (ok: bool)
      modifies this
      ensures readable == old(readable) && writable == old(writable)
      ensures var existing := if old(lines).Some? && old(readable) then Queued(old(lines).value) else [];
        (dateStr in existing ==> ok && lines == old(lines)) &&
        (dateStr !in existing ==>
           ok == old(writable) &&
           lines == if old(writable) then Some(LinesOf(old(lines)) + [dateStr]) else old(lines))
    {
      var existing: seq<string> := [];
      if lines.Some? && readable {
        existing := Queued(lines.value);
      }
      if dateStr !in existing {
        if writable {
          lines := Some(LinesOf(lines) + [dateStr]);
          return true;
        }
        return false;
      }
      return true;
    }

    /** `remove_from_queue(date_str)`: rewrites the file with the queued
        dates other than `date_str`; nothing changes when the file is
        missing or a read or write fails. */
    method RemoveFromQueue(dateStr: string)
      modifies this
      ensures readable == old(readable) && writable == old(writable)
      ensures old(lines).Some? && old(readable) && old(writable) ==>
        lines == Some(Without(Queued(old(lines).value), dateStr))
      ensures !(old(lines).Some? && old(readable) && old(writable)) ==> lines == old(lines)
    {
      if lines.None? || !readable {
        return;
      }
      var remainingDates := RemainingDates(lines.value, dateStr);
      if writable {
        lines := Some(remainingDates);
      }
    }

    /** `clear_queue()`: deletes the file; a failing delete is caught. */
    method ClearQueue()
      modifies this
      ensures readable == old(readable) && writable == old(writable)
      ensures lines == if old(writable) then None else old(lines)
    {
      if lines.Some? && writable {
        lines := None;
      }
    }
  }

  /** The lines of a file, none when it does not exist: an append creates it. */
  function LinesOf(lines: Option<seq<string>>): (r: seq<string>)
    ensures lines.Some? ==> r == lines.value
    ensures lines.None? ==> r == []
  {
    if lines.Some? then lines.value else []
  }

  /** After an append, the new date is queued last, behind the dates
      already there. */
  lemma AddQueuesLast(lines: seq<string>, dateStr: string)
    requires dateStr != "" && Strip(dateStr) == dateStr
    ensures Queued(lines + [dateStr]) == Queued(lines) + [dateStr]
  {
    QueuedAppend(lines, [dateStr]);
    assert [dateStr][..0] == [];
  }

  /** Adding a stripped date to a readable queue without duplicates keeps
      it without duplicates. */
  lemma AddKeepsNoDuplicates(lines: seq<string>, dateStr: string)
    requires NoDuplicates(Queued(lines)) && Strip(dateStr) == dateStr
    requires dateStr !in Queued(lines)
    ensures NoDuplicates(Queued(lines + [dateStr]))
  {
    QueuedAppend(lines, [dateStr]);
    assert [dateStr][..0] == [];
  }

  /** After a removal the file reads back as exactly the remaining dates:
      the removed date is gone, every other date stays, in order. */
  lemma RemoveReadsBack(lines: seq<string>, dateStr: string)
    ensures Queued(Without(Queued(lines), dateStr)) == Without(Queued(lines), dateStr)
    ensures dateStr !in Queued(Without(Queued(lines), dateStr))
    ensures multiset(Queued(Without(Queued(lines), dateStr))) == multiset(Queued(lines))[dateStr := 0]
  {
    var q := Queued(lines);
    QueuedStripped(lines);
    WithoutStripped(q, dateStr);
    QueuedOfQueued(Without(q, dateStr));
    WithoutMembers(q, dateStr);
  }

  lemma {:induction false} WithoutStripped(dates: seq<string>, date: string)
    requires forall i :: 0 <= i < |dates| ==> dates[i] != "" && Strip(dates[i]) == dates[i]
    ensures forall i :: 0 <= i < |Without(dates, date)| ==>
      Without(dates, date)[i] != "" && Strip(Without(dates, date)[i]) == Without(dates, date)[i]
  {
    if dates != [] {
      WithoutStripped(dates[..|dates| - 1], date);
    }
  }

  /** After `clear_queue` succeeds nothing is queued. */
  method ClearEmpties(q: UploadQueue)
    requires q.writable
    modifies q
    ensures q.GetQueuedDates() == []
  {
    q.ClearQueue();
  }
}
