/** The 3-hour forecast feed and its grouping into calendar days
    (`OpenWeatherClient.get_daily_forecast`). The provider's dict of lists,
    filled with `setdefault(date, []).append(entry)`, is modelled as a
    sequence of day buckets in dict insertion order. */
module Forecast {
  import opened Seqs

  /** One 3-hour step of the forecast feed. `dt` is unix seconds, `dtTxt`
      the provider's "YYYY-MM-DD HH:MM:SS" text, `icon` the first weather
      item's icon code. Temperatures are kept as reals. */
  datatype ForecastEntry = ForecastEntry(
    dt: int,
    dtTxt: string,
    temp: real,
    humidity: int,
    icon: string)

  /** One dict item: a date key and the entries appended under it. */
  datatype DayBucket = DayBucket(date: string, entries: seq<ForecastEntry>)

  /** `s.split(" ")[0]`: the text before the first space, or all of `s`
      when it has none. */
  function DateKey(s: string): (k: string)
    ensures |k| <= |s| && k == s[..|k|]
    ensures ' ' !in k
    ensures |k| == |s| || s[|k|] == ' '
  {
    if s == [] || s[0] == ' ' then [] else [s[0]] + DateKey(s[1..])
  }

  /** The three properties above pin the date key down: any prefix without
      a space that ends at the end of `s` or at a space is the date key. */
  lemma DateKeyUnique(s: string, k: string)
    requires |k| <= |s| && k == s[..|k|]
    requires ' ' !in k
    requires |k| == |s| || s[|k|] == ' '
    ensures DateKey(s) == k
  {
  }

  /** Round trip: the date part of "date time" text is the date. */
  lemma DateKeyOfStamp(date: string, time: string)
    requires ' ' !in date
    ensures DateKey(date + " " + time) == date
  {
    var s := date + " " + time;
    assert s[..|date|] == date;
    assert s[|date|] == ' ';
    DateKeyUnique(s, date);
  }

  function KeyOf(e: ForecastEntry): string {
    DateKey(e.dtTxt)
  }

  /** The date key of every entry, in feed order. */
  function DateKeys(es: seq<ForecastEntry>): (ks: seq<string>)
    ensures |ks| == |es|
    ensures forall i :: 0 <= i < |es| ==> ks[i] == KeyOf(es[i])
  {
    seq(|es|, i requires 0 <= i < |es| => KeyOf(es[i]))
  }

  /** The entries whose date key is `k`, in feed order: the reference
      definition of one day's bucket. */
  function Select(es: seq<ForecastEntry>, k: string): (r: seq<ForecastEntry>)
    ensures |r| <= |es|
    ensures forall i :: 0 <= i < |r| ==> KeyOf(r[i]) == k
    ensures k in DateKeys(es) <==> r != []
  {
    if es == [] then []
    else
      var init := es[..|es| - 1];
      var e := es[|es| - 1];
      assert DateKeys(es) == DateKeys(init) + [KeyOf(e)];
      Select(init, k) + (if KeyOf(e) == k then [e] else [])
  }

  function Dates(bs: seq<DayBucket>): (ds: seq<string>)
    ensures |ds| == |bs|
    ensures forall i :: 0 <= i < |bs| ==> ds[i] == bs[i].date
  {
    seq(|bs|, i requires 0 <= i < |bs| => bs[i].date)
  }

  /** `daily.setdefault(KeyOf(e), []).append(e)` on a dict with distinct
      keys: the bucket for the entry's date grows by the entry at its end,
      or a new one-entry bucket is added after all existing ones. */
  function AddEntry(bs: seq<DayBucket>, e: ForecastEntry): (r: seq<DayBucket>)
    requires Distinct(Dates(bs))
    ensures KeyOf(e) in Dates(bs) ==>
      && |r| == |bs|
      && forall i :: 0 <= i < |bs| ==>
           r[i] == (if bs[i].date == KeyOf(e) then DayBucket(bs[i].date, bs[i].entries + [e]) else bs[i])
    ensures KeyOf(e) !in Dates(bs) ==> r == bs + [DayBucket(KeyOf(e), [e])]
    decreases |bs|
  {
    if bs == [] then [DayBucket(KeyOf(e), [e])]
    else
      assert Dates(bs) == [bs[0].date] + Dates(bs[1..]);
      if bs[0].date == KeyOf(e) then
        assert forall i :: 1 <= i < |bs| ==> Dates(bs)[i] != Dates(bs)[0];
        [DayBucket(bs[0].date, bs[0].entries + [e])] + bs[1..]
      else
        var rest := AddEntry(bs[1..], e);
        assert KeyOf(e) !in Dates(bs) ==> [bs[0]] + rest == bs + [DayBucket(KeyOf(e), [e])];
        [bs[0]] + rest
  }

  /** The buckets `r` are the grouping of `es`: their dates are the distinct
      date keys in first-occurrence order, and the bucket for each date holds
      exactly that date's entries in feed order. */
  predicate IsGrouping(es: seq<ForecastEntry>, r: seq<DayBucket>) {
    && Dates(r) == Dedup(DateKeys(es))
    && forall i :: 0 <= i < |r| ==> r[i].entries == Select(es, r[i].date)
  }

  /** `get_daily_forecast`: feed the entries one by one into `AddEntry`. */
  function BucketByDay(es: seq<ForecastEntry>): (r: seq<DayBucket>)
    ensures IsGrouping(es, r)
    decreases |es|
  {
    if es == [] then []
    else
      var prev := BucketByDay(es[..|es| - 1]);
      BucketStep(es, prev);
      AddEntry(prev, es[|es| - 1])
  }

  /** One loop iteration of `get_daily_forecast` keeps the characterisation. */
  lemma BucketStep(es: seq<ForecastEntry>, prev: seq<DayBucket>)
    requires |es| > 0
    requires IsGrouping(es[..|es| - 1], prev)
    ensures Distinct(Dates(prev))
    ensures IsGrouping(es, AddEntry(prev, es[|es| - 1]))
  {
    var init := es[..|es| - 1];
    var e := es[|es| - 1];
    assert init + [e] == es;
    if KeyOf(e) in Dates(prev) {
      GroupingSnocExisting(init, e, prev);
    } else {
      GroupingSnocNew(init, e, prev);
    }
  }

  lemma DateKeysSnoc(init: seq<ForecastEntry>, e: ForecastEntry)
    ensures DateKeys(init + [e]) == DateKeys(init) + [KeyOf(e)]
  {
  }

  /** The entry's date already has a bucket. */
  lemma GroupingSnocExisting(init: seq<ForecastEntry>, e: ForecastEntry, prev: seq<DayBucket>)
    requires IsGrouping(init, prev)
    requires KeyOf(e) in Dates(prev)
    ensures Distinct(Dates(prev))
    ensures IsGrouping(init + [e], AddEntry(prev, e))
  {
    DateKeysSnoc(init, e);
    DedupSnoc(DateKeys(init), KeyOf(e));
    StepExistingDate(init, e, prev);
  }

  /** The entry's date is new. */
  lemma GroupingSnocNew(init: seq<ForecastEntry>, e: ForecastEntry, prev: seq<DayBucket>)
    requires IsGrouping(init, prev)
    requires KeyOf(e) !in Dates(prev)
    ensures Distinct(Dates(prev))
    ensures IsGrouping(init + [e], AddEntry(prev, e))
  {
    DateKeysSnoc(init, e);
    DedupSnoc(DateKeys(init), KeyOf(e));
    assert KeyOf(e) !in DateKeys(init);
    StepNewDate(init, e, prev);
  }

  /** Appending an entry extends only its own date's selection. */
  lemma SelectSnoc(init: seq<ForecastEntry>, e: ForecastEntry, d: string)
    ensures Select(init + [e], d) == Select(init, d) + (if KeyOf(e) == d then [e] else [])
  {
    assert (init + [e])[..|init|] == init;
  }

  lemma StepExistingDate(init: seq<ForecastEntry>, e: ForecastEntry, prev: seq<DayBucket>)
    requires IsGrouping(init, prev)
    requires KeyOf(e) in Dates(prev)
    ensures forall i :: 0 <= i < |AddEntry(prev, e)| ==>
      AddEntry(prev, e)[i].entries == Select(init + [e], AddEntry(prev, e)[i].date)
    ensures Dates(AddEntry(prev, e)) == Dates(prev)
  {
    var r := AddEntry(prev, e);
    forall i | 0 <= i < |r|
      ensures r[i].entries == Select(init + [e], r[i].date)
    {
      SelectSnoc(init, e, prev[i].date);
    }
  }

  lemma StepNewDate(init: seq<ForecastEntry>, e: ForecastEntry, prev: seq<DayBucket>)
    requires Distinct(Dates(prev))
    requires forall i :: 0 <= i < |prev| ==> prev[i].entries == Select(init, prev[i].date)
    requires KeyOf(e) !in Dates(prev)
    requires Select(init, KeyOf(e)) == []
    ensures forall i :: 0 <= i < |AddEntry(prev, e)| ==>
      AddEntry(prev, e)[i].entries == Select(init + [e], AddEntry(prev, e)[i].date)
    ensures Dates(AddEntry(prev, e)) == Dates(prev) + [KeyOf(e)]
  {
    var k := KeyOf(e);
    var b := DayBucket(k, [e]);
    var r := AddEntry(prev, e);
    assert r == prev + [b];
    forall i | 0 <= i < |r|
      ensures r[i].entries == Select(init + [e], r[i].date)
    {
      if i < |prev| {
        assert r[i] == prev[i];
        assert Dates(prev)[i] == prev[i].date;
        OldBucketUnchanged(init, e, prev[i]);
      } else {
        assert r[i] == b;
        SelectSnoc(init, e, k);
      }
    }
    DatesSnoc(prev, b);
  }

  lemma DatesSnoc(bs: seq<DayBucket>, b: DayBucket)
    ensures Dates(bs + [b]) == Dates(bs) + [b.date]
  {
  }

  /** A bucket of another date is not affected by the new entry. */
  lemma OldBucketUnchanged(init: seq<ForecastEntry>, e: ForecastEntry, b: DayBucket)
    requires b.entries == Select(init, b.date)
    requires b.date != KeyOf(e)
    ensures b.entries == Select(init + [e], b.date)
  {
    SelectSnoc(init, e, b.date);
  }

  /** Every entry of a bucket carries that bucket's date key, and no bucket
      is empty (a key is only created together with its first entry). */
  lemma BucketsWellFormed(es: seq<ForecastEntry>)
    ensures Distinct(Dates(BucketByDay(es)))
    ensures forall i :: 0 <= i < |BucketByDay(es)| ==> BucketByDay(es)[i].entries != []
    ensures forall i, j :: 0 <= i < |BucketByDay(es)| && 0 <= j < |BucketByDay(es)[i].entries| ==>
      KeyOf(BucketByDay(es)[i].entries[j]) == BucketByDay(es)[i].date
  {
    var r := BucketByDay(es);
    forall i | 0 <= i < |r| ensures r[i].entries != [] {
      assert Dates(r)[i] in DateKeys(es);
    }
  }

  /** Every entry lands in the bucket of its own date, and that bucket is
      the only one with that date. */
  lemma EntryHasBucket(es: seq<ForecastEntry>, n: nat)
    requires n < |es|
    ensures exists i :: 0 <= i < |BucketByDay(es)| && BucketByDay(es)[i].date == KeyOf(es[n])
    ensures forall i, j ::
      (0 <= i < |BucketByDay(es)| && 0 <= j < |BucketByDay(es)| &&
       BucketByDay(es)[i].date == KeyOf(es[n]) && BucketByDay(es)[j].date == KeyOf(es[n])) ==> i == j
  {
    var r := BucketByDay(es);
    assert DateKeys(es)[n] in Dates(r);
    BucketsWellFormed(es);
  }

  /** Total number of entries over all buckets. */
  function TotalSize(bs: seq<DayBucket>): nat {
    if bs == [] then 0 else TotalSize(bs[..|bs| - 1]) + |bs[|bs| - 1].entries|
  }

  lemma {:induction false} TotalSizeAppend(bs: seq<DayBucket>, b: DayBucket)
    ensures TotalSize(bs + [b]) == TotalSize(bs) + |b.entries|
  {
    assert (bs + [b])[..|bs|] == bs;
  }

  /** Changing one bucket changes the total by the change in its size. */
  lemma {:induction false} TotalSizeUpdate(bs: seq<DayBucket>, i: nat, b: DayBucket)
    requires i < |bs|
    ensures TotalSize(bs[i := b]) == TotalSize(bs) - |bs[i].entries| + |b.entries|
    decreases |bs|
  {
    var n := |bs| - 1;
    if i == n {
      assert bs[i := b][..n] == bs[..n];
    } else {
      TotalSizeUpdate(bs[..n], i, b);
      assert bs[i := b][..n] == bs[..n][i := b];
    }
  }

  /** Each `AddEntry` grows the total by exactly one entry. */
  lemma AddEntryTotal(bs: seq<DayBucket>, e: ForecastEntry)
    requires Distinct(Dates(bs))
    ensures TotalSize(AddEntry(bs, e)) == TotalSize(bs) + 1
  {
    var k := KeyOf(e);
    if k in Dates(bs) {
      var i :| 0 <= i < |bs| && Dates(bs)[i] == k;
      var b := DayBucket(k, bs[i].entries + [e]);
      assert AddEntry(bs, e) == bs[i := b];
      TotalSizeUpdate(bs, i, b);
    } else {
      TotalSizeAppend(bs, DayBucket(k, [e]));
    }
  }

  /** Every entry is appended to exactly one bucket: the bucket sizes add up
      to the length of the feed. */
  lemma {:induction false} BucketTotal(es: seq<ForecastEntry>)
    ensures TotalSize(BucketByDay(es)) == |es|
    decreases |es|
  {
    if es != [] {
      var init := es[..|es| - 1];
      BucketTotal(init);
      BucketStep(es, BucketByDay(init));
      AddEntryTotal(BucketByDay(init), es[|es| - 1]);
    }
  }

  /** All bucket entries, bucket after bucket. */
  function Flatten(bs: seq<DayBucket>): seq<ForecastEntry> {
    if bs == [] then [] else Flatten(bs[..|bs| - 1]) + bs[|bs| - 1].entries
  }

  lemma FlattenSnoc(bs: seq<DayBucket>, b: DayBucket)
    ensures Flatten(bs + [b]) == Flatten(bs) + b.entries
  {
    assert (bs + [b])[..|bs|] == bs;
  }

  /** Adding an entry of the last bucket's date grows the flattening by
      that entry. */
  lemma AddToLastBucket(bs: seq<DayBucket>, e: ForecastEntry)
    requires Distinct(Dates(bs))
    requires |bs| > 0 && bs[|bs| - 1].date == KeyOf(e)
    ensures Flatten(AddEntry(bs, e)) == Flatten(bs) + [e]
  {
    var r := AddEntry(bs, e);
    var m := |bs| - 1;
    assert Dates(bs)[m] == KeyOf(e);
    forall i | 0 <= i < m ensures r[i] == bs[i] {
      assert Dates(bs)[i] != Dates(bs)[m];
    }
    FlattenLastGrow(bs, r, e);
  }

  /** Growing only the last bucket by `e` grows the flattening by `e`. */
  lemma FlattenLastGrow(bs: seq<DayBucket>, r: seq<DayBucket>, e: ForecastEntry)
    requires |bs| > 0 && |r| == |bs|
    requires forall i :: 0 <= i < |bs| - 1 ==> r[i] == bs[i]
    requires r[|bs| - 1].entries == bs[|bs| - 1].entries + [e]
    ensures Flatten(r) == Flatten(bs) + [e]
  {
    var m := |bs| - 1;
    assert r[..m] == bs[..m];
  }

  /** In a grouped feed, an entry whose date already has a bucket belongs
      to the last bucket. */
  lemma GroupedRepeatIsLast(ks0: seq<string>, k: string, bs: seq<DayBucket>)
    requires Grouped(ks0 + [k])
    requires Dates(bs) == Dedup(ks0)
    requires k in Dates(bs)
    ensures |bs| > 0 && bs[|bs| - 1].date == k
  {
    var ks := ks0 + [k];
    var n := |ks0|;
    assert k in ks0;
    assert ks[n] in ks[..n] by {
      assert ks[..n] == ks0;
    }
    assert ks0[n - 1] == k;
    GroupedPrefix(ks);
    assert ks[..n] == ks0;
    DedupLastGrouped(ks0);
  }

  /** When the entries of each date stand next to each other in the feed (as
      in a chronological feed), reading the buckets in order gives the feed
      back unchanged. */
  lemma {:induction false} FlattenGrouped(es: seq<ForecastEntry>)
    requires Grouped(DateKeys(es))
    ensures Flatten(BucketByDay(es)) == es
    decreases |es|
  {
    if es != [] {
      var n := |es| - 1;
      var init := es[..n];
      var e := es[n];
      var k := KeyOf(e);
      var ks0 := DateKeys(init);
      assert DateKeys(es) == ks0 + [k];
      GroupedPrefix(DateKeys(es));
      assert DateKeys(es)[..n] == ks0;
      FlattenGrouped(init);
      var prev := BucketByDay(init);
      BucketStep(es, prev);
      LastSplit(es);
      if k in Dates(prev) {
        GroupedRepeatIsLast(ks0, k, prev);
        AddToLastBucket(prev, e);
      } else {
        FlattenSnoc(prev, DayBucket(k, [e]));
      }
    }
  }

  /** The first bucket is the first entry's date (the app's default day). */
  lemma FirstBucketIsFirstDate(es: seq<ForecastEntry>)
    requires |es| > 0
    ensures |BucketByDay(es)| > 0 && BucketByDay(es)[0].date == KeyOf(es[0])
  {
    DedupHead(DateKeys(es));
  }

  /** Buckets come in the order in which their dates first occur in the feed. */
  lemma BucketOrder(es: seq<ForecastEntry>)
    ensures forall i, j :: 0 <= i < j < |BucketByDay(es)| ==>
      FirstBefore(DateKeys(es), BucketByDay(es)[i].date, BucketByDay(es)[j].date)
  {
    DedupFirstOccurrenceOrder(DateKeys(es));
  }
}
