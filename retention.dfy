/** `deleteOldFiles()`: the retention sweep of the logger folder. */
module Retention {
  import opened Common
  import opened Dates
  import opened XmlDocs

  /** The deletion test: an `.xml` name whose first eight characters
      compare `<=` the cutoff `YYYYMMDD` text. */
  predicate Doomed(name: string, cutoff: string) {
    EndsWith(name, ".xml") && LexLe(Take(name, 8), cutoff)
  }

  /** The files the sweep leaves, in listing order. */
  function Kept(files: seq<XmlFile>, cutoff: string): (r: seq<XmlFile>)
    ensures |r| <= |files|
  {
    if files == [] then []
    else
      var f := files[|files| - 1];
      Kept(files[..|files| - 1], cutoff) + (if Doomed(f.name, cutoff) then [] else [f])
  }

  /** A file stays exactly when it is not doomed. */
  lemma {:induction false} KeptMembers(files: seq<XmlFile>, cutoff: string)
    ensures forall f :: f in Kept(files, cutoff) <==> f in files && !Doomed(f.name, cutoff)
  {
    if files != [] {
      var init, f := files[..|files| - 1], files[|files| - 1];
      KeptMembers(init, cutoff);
      assert files == init + [f];
    }
  }

  /** `howManyDeleted`. */
  function DeletedCount(files: seq<XmlFile>, cutoff: string): (n: nat)
    ensures n + |Kept(files, cutoff)| == |files|
  {
    if files == [] then 0
    else
      var f := files[|files| - 1];
      DeletedCount(files[..|files| - 1], cutoff) + (if Doomed(f.name, cutoff) then 1 else 0)
  }

  /** `(date.today() - timedelta(days=n)).strftime("%Y%m%d")`; `None` is
      the OverflowError for a day outside years 1..9999. */
  function Cutoff(today: Date, days: int): (r: Option<string>)
    requires Valid(today)
    ensures r.Some? ==> |r.value| == 8 && AllDigits(r.value)
  {
    match AddDays(today, -days)
    case None => None
    case Some(d) => Some(Compact(d))
  }

  /** The folder after the sweep and the number of files removed. */
  datatype Sweep = Sweep(files: seq<XmlFile>, deleted: nat)

  /** `deleteOldFiles()` with `today` for `date.today()` and `days` for
      `howLongToSaveOldFiles`. */
  function DeleteOldFiles(files: seq<XmlFile>, today: Date, days: int): (r: Result<Sweep>)
    requires Valid(today)
    ensures days == 0 ==> r == Ok(Sweep(files, 0))
    ensures r.Raised? ==> r.error == OverflowError && days != 0
    ensures r.Ok? ==> r.value.deleted + |r.value.files| == |files|
  {
    if days == 0 then Ok(Sweep(files, 0))
    else
      match Cutoff(today, days)
      case None => Raised(OverflowError)
      case Some(c) => Ok(Sweep(Kept(files, c), DeletedCount(files, c)))
  }

  /** The sweep works file by file: sweeping a listing in two parts keeps what sweeping each part keeps. */
  lemma {:induction false} KeptAppend(a: seq<XmlFile>, b: seq<XmlFile>, cutoff: string)
    ensures Kept(a + b, cutoff) == Kept(a, cutoff) + Kept(b, cutoff)
    decreases |b|
  {
    if b == [] {
      assert a + b == a;
    } else {
      assert (a + b)[..|a + b| - 1] == a + b[..|b| - 1];
      KeptAppend(a, b[..|b| - 1], cutoff);
    }
  }

  /** For a logger file named `YYYYMMDD...`, the text test is a date test:
      the file goes exactly when its day is on or before `today - days`. */
  lemma DoomedByDate(d: Date, rest: string, today: Date, days: int)
    requires Valid(d) && Valid(today) && Cutoff(today, days).Some?
    ensures Doomed(Compact(d) + rest, Cutoff(today, days).value) <==>
      EndsWith(Compact(d) + rest, ".xml") && Ordinal(d) <= Ordinal(today) - days
  {
    var c := AddDays(today, -days).value;
    assert Take(Compact(d) + rest, 8) == Compact(d);
    CompactOrder(d, c);
  }
}
