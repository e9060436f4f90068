/** The reporting side of controllers/callController.js: the paginated, call-enriched list of
    provider recordings (`getAllRecordings`) and the time-bucketed recording counts
    (`getAudioStats`). The provider's answers are inputs; timestamps and calendar days are
    integers. */
module RecordingReports {
  import opened Http
  import opened Store
  import opened CallModel

  /** A recording as the provider reports it; `uri` is its metadata resource path. */
  datatype Recording = Recording(sid: string, callSid: string, dateCreated: int, duration: string,
                                 status: string, uri: string)

  /** The outcome of a JSON reporting endpoint: its body, or the 500 a failed provider call
      turns into. */
  datatype Outcome<T> = Ok(value: T) | Failed(code: nat)

  // ---------------------------------------------------------------------------------------
  // Filters and the two provider queries

  /** The query string of `/get-recording`. `None` stands for a parameter that is absent or
      empty; dates are calendar day numbers. */
  datatype RecordingQuery = RecordingQuery(date: Option<int>, dateAfter: Option<int>, dateBefore: Option<int>,
                                           page: Option<nat>, pageSize: Option<nat>)

  /** The parameters of one provider listing; `limit == None` lists everything that matches. */
  datatype ListParams = ListParams(limit: Option<nat>, page: nat,
                                   dateCreatedAfter: Option<int>, dateCreatedBefore: Option<int>)

  const DefaultPageSize: nat := 10

  /** Page size: the given one, else 10. */
  function PageLimit(q: RecordingQuery): nat
  {
    if q.pageSize.Some? then q.pageSize.value else DefaultPageSize
  }

  /** Zero-based page index: the given one, else 0. */
  function PageIndex(q: RecordingQuery): nat
  {
    if q.page.Some? then q.page.value else 0
  }

  /** The filters of the paged listing. A single `date` sets both bounds to that day and the
      next; an explicit `dateAfter` or `dateBefore` then overrides the bound it names. */
  function Filters(q: RecordingQuery): (f: ListParams)
    ensures f.limit == Some(PageLimit(q)) && f.page == PageIndex(q)
    ensures q.page.None? ==> f.page == 0
    ensures q.pageSize.None? ==> f.limit == Some(10)
    ensures q.dateAfter.Some? ==> f.dateCreatedAfter == q.dateAfter
    ensures q.dateBefore.Some? ==> f.dateCreatedBefore == q.dateBefore
    ensures q.dateAfter.None? ==> f.dateCreatedAfter == q.date
    ensures q.dateBefore.None? && q.date.Some? ==> f.dateCreatedBefore == Some(q.date.value + 1)
    ensures q.dateBefore.None? && q.date.None? ==> f.dateCreatedBefore.None?
  {
    var after := if q.date.Some? then q.date else None;
    var before := if q.date.Some? then Some(q.date.value + 1) else None;
    var after := if q.dateAfter.Some? then q.dateAfter else after;
    var before := if q.dateBefore.Some? then q.dateBefore else before;
    ListParams(Some(PageLimit(q)), PageIndex(q), after, before)
  }

  /** The listing that counts every match: the same filters with the limit taken away. */
  function CountingQuery(q: RecordingQuery): ListParams
  {
    Filters(q).(limit := None)
  }

  // ---------------------------------------------------------------------------------------
  // Page arithmetic

  /** `Math.ceil(total / limit)` as the JSON reply carries it: the least page count whose pages
      hold every match. A zero limit makes the division infinite or undefined, which the JSON
      encoder writes as `null`. */
  function TotalPages(total: nat, limit: nat): (r: Option<nat>)
    ensures r.None? <==> limit == 0
    ensures r.Some? ==> total <= r.value * limit < total + limit
  {
    if limit == 0 then None
    else
      var n := (total + limit - 1) / limit;
      DivisionBounds(total + limit - 1, limit);
      Some(n)
  }

  /** Quotient and remainder of natural division. */
  lemma DivisionBounds(a: nat, b: nat)
    requires b > 0
    ensures a - b < (a / b) * b <= a
  {
  }

  /** The page-count characterisation pins the count down: no other count has all of the
      matches on its pages while its last page is non-empty. */
  lemma {:induction false} TotalPagesUnique(total: nat, limit: nat, n: nat)
    requires limit > 0
    requires total <= n * limit < total + limit
    ensures TotalPages(total, limit) == Some(n)
  {
    var m := TotalPages(total, limit).value;
    if m < n {
      MulMonotone(m + 1, n, limit);
    } else if n < m {
      MulMonotone(n + 1, m, limit);
    }
  }

  /** Multiplication by a natural is monotone. */
  lemma MulMonotone(a: nat, b: nat, k: nat)
    requires a <= b
    ensures a * k <= b * k
  {
  }

  /** The next-page heuristic: `page + 1` exactly when the page came back full. */
  function NextPage(pageCount: nat, limit: nat, page: nat): (r: Option<nat>)
    ensures r.Some? <==> pageCount == limit
    ensures r.Some? ==> r.value == page + 1
  {
    if pageCount == limit then Some(page + 1) else None
  }

  /** Page `page` of `all` at `limit` items a page (empty past the end). */
  function PageOf<T>(all: seq<T>, page: nat, limit: nat): (r: seq<T>)
    ensures |r| <= limit
  {
    var lo := if page * limit <= |all| then page * limit else |all|;
    var hi := if (page + 1) * limit <= |all| then (page + 1) * limit else |all|;
    all[lo..hi]
  }

  /** When the provider's page is the matching slice of all the matches, the heuristic never
      hides a page that exists, and it names at most one page too many: a non-null `nextPage`
      is at most `totalPages`, a null one means no page follows. */
  lemma {:induction false} NextPageHeuristic<T>(all: seq<T>, page: nat, limit: nat)
    requires limit > 0
    ensures var next := NextPage(|PageOf(all, page, limit)|, limit, page);
            var total := TotalPages(|all|, limit).value;
            && (next.Some? <==> (page + 1) * limit <= |all|)
            && (next.Some? ==> next.value <= total)
            && (next.None? ==> total <= page + 1)
  {
    var total := TotalPages(|all|, limit).value;
    var pageItems := PageOf(all, page, limit);
    var lo, hi := page * limit, (page + 1) * limit;
    assert hi == lo + limit;
    if hi <= |all| {
      assert |pageItems| == limit;
      if total <= page {
        MulMonotone(total, page, limit);
      }
    } else {
      assert |pageItems| < limit;
      if page + 2 <= total {
        assert (page + 2) * limit == hi + limit;
        MulMonotone(page + 2, total, limit);
      }
    }
  }

  /** The known imprecision: when the matches exactly fill the requested page and nothing
      follows, `nextPage` still names the page after it, which is `totalPages` itself. */
  lemma FullLastPageOvershoots<T>(all: seq<T>, page: nat, limit: nat)
    requires limit > 0 && |all| == (page + 1) * limit
    ensures NextPage(|PageOf(all, page, limit)|, limit, page) == Some(page + 1)
    ensures TotalPages(|all|, limit) == Some(page + 1)
  {
    TotalPagesUnique(|all|, limit, page + 1);
  }

  // ---------------------------------------------------------------------------------------
  // Media URL

  /** Whether `pat` occurs in `s` at position `i`. */
  predicate OccursAt(s: string, pat: string, i: nat)
  {
    i + |pat| <= |s| && s[i..i + |pat|] == pat
  }

  /** The position of the first occurrence of `pat` in `s`, if any. */
  function IndexOf(s: string, pat: string): (r: Option<nat>)
    ensures r.Some? ==> OccursAt(s, pat, r.value)
    ensures forall i: nat :: (r.None? || i < r.value) ==> !OccursAt(s, pat, i)
    decreases |s|
  {
    if |s| < |pat| then None
    else if s[..|pat|] == pat then Some(0)
    else
      ShiftedOccurrence(s, pat);
      match IndexOf(s[1..], pat)
      case None => None
      case Some(k) => Some(k + 1)
  }

  /** An occurrence past the first position of `s` is an occurrence in its tail. */
  lemma ShiftedOccurrence(s: string, pat: string)
    requires |s| > 0
    ensures forall i: nat :: 1 <= i ==> (OccursAt(s, pat, i) <==> OccursAt(s[1..], pat, i - 1))
  {
  }

  /** JavaScript's `s.replace(pat, rep)` with a string pattern: only the first occurrence is
      replaced. */
  function ReplaceFirst(s: string, pat: string, rep: string): (r: string)
    ensures IndexOf(s, pat).None? ==> r == s
    ensures IndexOf(s, pat).Some? ==>
      var i := IndexOf(s, pat).value;
      && |r| == |s| - |pat| + |rep|
      && r[..i] == s[..i] && r[i..i + |rep|] == rep && r[i + |rep|..] == s[i + |pat|..]
  {
    match IndexOf(s, pat)
    case None => s
    case Some(i) => s[..i] + rep + s[i + |pat|..]
  }

  const ProviderHost := "https://api.twilio.com"

  /** The public media URL of a recording: the provider host followed by the resource path
      with its first ".json" turned into ".mp3". */
  function MediaUrl(uri: string): (r: string)
    ensures |r| == |ProviderHost| + |uri| - (if IndexOf(uri, ".json").Some? then 1 else 0)
    ensures r[..|ProviderHost|] == "https://api.twilio.com"
  {
    ProviderHost + ReplaceFirst(uri, ".json", ".mp3")
  }

  /** For every path: its first ".json" becomes ".mp3" and the rest is kept, after the host. */
  lemma MediaUrlRewrite(uri: string, i: nat)
    requires IndexOf(uri, ".json") == Some(i)
    ensures MediaUrl(uri) == "https://api.twilio.com" + uri[..i] + ".mp3" + uri[i + 5..]
  {
    var r := ReplaceFirst(uri, ".json", ".mp3");
    assert r == r[..i] + r[i..i + 4] + r[i + 4..];
  }

  /** A metadata path whose only ".json" is its suffix becomes the path of the same resource
      with the ".mp3" suffix. */
  lemma MediaUrlOfJsonResource(base: string)
    requires IndexOf(base, ".json").None?
    ensures MediaUrl(base + ".json") == "https://api.twilio.com" + base + ".mp3"
  {
    var s := base + ".json";
    assert OccursAt(s, ".json", |base|);
    forall i: nat | i < |base| ensures !OccursAt(s, ".json", i) {
      if i + 5 <= |base| {
        assert s[i..i + 5] == base[i..i + 5];
        assert !OccursAt(base, ".json", i);
      } else if i + 5 <= |s| {
        var k := |base| - i;
        assert s[i..i + 5][k] == '.';
        assert ".json"[k] != '.';
      }
    }
    var r := IndexOf(s, ".json");
    assert r == Some(|base|);
    assert s[..|base|] == base;
    assert s[|base| + 5..] == [];
  }

  /** A path without ".json" is kept as it is. */
  lemma MediaUrlWithoutJson(uri: string)
    requires IndexOf(uri, ".json").None?
    ensures MediaUrl(uri) == "https://api.twilio.com" + uri
  {
  }

  // ---------------------------------------------------------------------------------------
  // Enrichment

  /** `createdAt` of an enriched recording: the call's creation time, or the text "Unknown". */
  datatype CreatedAt = At(time: int) | Unknown

  const UnknownText := "Unknown"

  /** A recording as the endpoint returns it, joined with the call it belongs to. */
  datatype EnrichedRecording = EnrichedRecording(
    sid: string, callSid: string, dateCreated: int, duration: string, status: string,
    recordingUrl: string, from: string, to: string, createdAt: CreatedAt)

  /** `Call.findOne({ where: { callSid: sid } })` in table order. */
  function FindCall(calls: seq<Call>, sid: string): Option<nat>
  {
    FindFirst(calls, (c: Call) => c.callSid == sid)
  }

  /** One recording joined with its call: the provider's fields as they are, the media URL,
      and the call's `from`, `to` and `createdAt`, each "Unknown" when no call has that id. */
  function Enrich(rec: Recording, calls: seq<Call>): (e: EnrichedRecording)
    ensures e.sid == rec.sid && e.callSid == rec.callSid && e.dateCreated == rec.dateCreated
    ensures e.duration == rec.duration && e.status == rec.status
    ensures e.recordingUrl == MediaUrl(rec.uri)
    ensures (forall i :: 0 <= i < |calls| ==> calls[i].callSid != rec.callSid) ==>
              e.from == "Unknown" && e.to == "Unknown" && e.createdAt == Unknown
    ensures forall i :: 0 <= i < |calls| && calls[i].callSid == rec.callSid &&
                        (forall j :: 0 <= j < i ==> calls[j].callSid != rec.callSid) ==>
              e.from == calls[i].from && e.to == calls[i].to && e.createdAt == At(calls[i].createdAt)
  {
    var url := MediaUrl(rec.uri);
    match FindCall(calls, rec.callSid)
    case None =>
      EnrichedRecording(rec.sid, rec.callSid, rec.dateCreated, rec.duration, rec.status, url,
                        UnknownText, UnknownText, Unknown)
    case Some(k) =>
      EnrichedRecording(rec.sid, rec.callSid, rec.dateCreated, rec.duration, rec.status, url,
                        calls[k].from, calls[k].to, At(calls[k].createdAt))
  }

  /** The enrichment of a whole page: same length, same order, one joined record per recording. */
  function EnrichAll(page: seq<Recording>, calls: seq<Call>): (r: seq<EnrichedRecording>)
    ensures |r| == |page|
    ensures forall i :: 0 <= i < |page| ==> r[i] == Enrich(page[i], calls)
  {
    if page == [] then [] else [Enrich(page[0], calls)] + EnrichAll(page[1..], calls)
  }

  // ---------------------------------------------------------------------------------------
  // getAllRecordings

  /** The JSON body of a successful `/get-recording`. */
  datatype RecordingsPage = RecordingsPage(page: nat, pageSize: nat, nextPage: Option<nat>,
                                           totalPages: Option<nat>, recordings: seq<EnrichedRecording>)

  /** `getAllRecordings`. `list` is the provider's listing endpoint (`None` when a call fails)
      and `calls` the `Call` table. The provider is asked first for every match of the filters
      (`CountingQuery`), then for the requested page (`Filters`); the page count comes from the
      first answer, the next page from the size of the second. */
  function GetAllRecordings(q: RecordingQuery, list: ListParams -> Option<seq<Recording>>,
                            calls: seq<Call>): (r: Outcome<RecordingsPage>)
    ensures r.Failed? <==> list(Filters(q).(limit := None)).None? || list(Filters(q)).None?
    ensures r.Failed? ==> r.code == 500
    ensures r.Ok? ==>
      var everything, paged := list(Filters(q).(limit := None)).value, list(Filters(q)).value;
      && r.value.page == PageIndex(q) && r.value.pageSize == PageLimit(q)
      && r.value.totalPages == TotalPages(|everything|, PageLimit(q))
      && (r.value.nextPage.Some? <==> |paged| == PageLimit(q))
      && (r.value.nextPage.Some? ==> r.value.nextPage.value == PageIndex(q) + 1)
      && |r.value.recordings| == |paged|
      && forall i :: 0 <= i < |paged| ==> r.value.recordings[i] == Enrich(paged[i], calls)
  {
    var everything := list(CountingQuery(q));
    var paged := list(Filters(q));
    if everything.None? || paged.None? then Failed(500)
    else
      var f := Filters(q);
      var limit := f.limit.value;
      Ok(RecordingsPage(f.page, limit, NextPage(|paged.value|, limit, f.page),
                        TotalPages(|everything.value|, limit), EnrichAll(paged.value, calls)))
  }

  /** A provider that answers consistently: the recordings matching the date bounds are
      `matches(after, before)`; an unlimited listing returns them all, a limited one the
      requested page of them. */
  function ConsistentList(matches: (Option<int>, Option<int>) -> seq<Recording>, p: ListParams): Option<seq<Recording>>
  {
    var all := matches(p.dateCreatedAfter, p.dateCreatedBefore);
    Some(if p.limit.None? then all else PageOf(all, p.page, p.limit.value))
  }

  /** Against a consistent provider the counting listing and the paged listing draw on the same
      matches, so `totalPages` is the page count of the matches, the recordings are the
      requested page of them, a non-null `nextPage` is at most `totalPages`, and a null one
      means no page follows. */
  lemma RecordingsOfConsistentProvider(q: RecordingQuery, matches: (Option<int>, Option<int>) -> seq<Recording>,
                                       calls: seq<Call>)
    requires PageLimit(q) > 0
    ensures var f := Filters(q);
            var all := matches(f.dateCreatedAfter, f.dateCreatedBefore);
            var r := GetAllRecordings(q, p => ConsistentList(matches, p), calls);
            && r.Ok?
            && r.value.totalPages == TotalPages(|all|, PageLimit(q))
            && r.value.recordings == EnrichAll(PageOf(all, PageIndex(q), PageLimit(q)), calls)
            && (r.value.nextPage.Some? <==> (PageIndex(q) + 1) * PageLimit(q) <= |all|)
            && (r.value.nextPage.Some? ==> r.value.nextPage.value <= r.value.totalPages.value)
            && (r.value.nextPage.None? ==> r.value.totalPages.value <= PageIndex(q) + 1)
  {
    var f := Filters(q);
    var all := matches(f.dateCreatedAfter, f.dateCreatedBefore);
    NextPageHeuristic(all, PageIndex(q), PageLimit(q));
  }

  /** For a consistent provider (the same 25 matches for both calls, and `page` honoured as a
      zero-based page index at `limit` items a page): at the default page size there are three
      pages, and the third page, holding the last five, has no next page. */
  lemma TwentyFiveRecordings(all: seq<Recording>, calls: seq<Call>)
    requires |all| == 25
    ensures var q := RecordingQuery(None, None, None, Some(2), None);
            var r := GetAllRecordings(q, p => ConsistentList((a, b) => all, p), calls);
            r.Ok? && r.value.totalPages == Some(3) && r.value.nextPage.None? && |r.value.recordings| == 5
  {
    TotalPagesUnique(25, 10, 3);
  }

  // ---------------------------------------------------------------------------------------
  // getAudioStats

  /** The four start-of-day boundaries, measured from "now", in the same time unit as
      `dateCreated`. */
  datatype DayStarts = DayStarts(today: int, yesterday: int, last7Days: int, last30Days: int)

  /** Calendar days run forward: 30 days ago, 7 days ago, yesterday, today. */
  predicate Chronological(d: DayStarts)
  {
    d.last30Days <= d.last7Days <= d.yesterday <= d.today
  }

  /** The JSON `data` of a successful `/audio-stats`. */
  datatype AudioStats = AudioStats(today: nat, yesterday: nat, last7Days: nat, last30Days: nat)

  const StatsFetchLimit: nat := 1000

  /** The most recent recordings the provider hands over: the first 1000 of its listing. */
  function Fetched(listing: seq<Recording>): (r: seq<Recording>)
    ensures |r| <= 1000
    ensures |r| == if |listing| <= 1000 then |listing| else 1000
    ensures r <= listing
  {
    if |listing| <= StatsFetchLimit then listing else listing[..StatsFetchLimit]
  }

  /** How many recordings were created at or after `start`. */
  function CountSince(recs: seq<Recording>, start: int): (n: nat)
    ensures n <= |recs|
    ensures (forall i :: 0 <= i < |recs| ==> recs[i].dateCreated < start) ==> n == 0
    ensures (forall i :: 0 <= i < |recs| ==> recs[i].dateCreated >= start) ==> n == |recs|
  {
    if recs == [] then 0
    else (if recs[0].dateCreated >= start then 1 else 0) + CountSince(recs[1..], start)
  }

  /** How many recordings were created in the half-open window [lo, hi). */
  function CountBetween(recs: seq<Recording>, lo: int, hi: int): (n: nat)
    ensures n <= |recs|
    ensures hi <= lo ==> n == 0
    ensures (forall i :: 0 <= i < |recs| ==> lo <= recs[i].dateCreated < hi) ==> n == |recs|
  {
    if recs == [] then 0
    else (if lo <= recs[0].dateCreated < hi then 1 else 0) + CountBetween(recs[1..], lo, hi)
  }

  /** Counting over a concatenation adds the counts of its parts. */
  lemma {:induction false} CountsAppend(a: seq<Recording>, b: seq<Recording>, lo: int, hi: int)
    ensures CountSince(a + b, lo) == CountSince(a, lo) + CountSince(b, lo)
    ensures CountBetween(a + b, lo, hi) == CountBetween(a, lo, hi) + CountBetween(b, lo, hi)
  {
    if a != [] {
      assert (a + b)[1..] == a[1..] + b;
      CountsAppend(a[1..], b, lo, hi);
    } else {
      assert a + b == b;
    }
  }

  /** `CountSince` is the number of positions of the listing holding a recording created at or
      after `start`: the length of `filter(rec => created >= start)`. */
  lemma {:induction false} CountSinceCounts(recs: seq<Recording>, start: int)
    ensures CountSince(recs, start) == |set i | 0 <= i < |recs| && recs[i].dateCreated >= start|
  {
    var matching := set i | 0 <= i < |recs| && recs[i].dateCreated >= start;
    if recs == [] {
      assert matching == {};
    } else {
      var init, last := recs[..|recs| - 1], recs[|recs| - 1];
      assert recs == init + [last];
      CountsAppend(init, [last], start, start);
      CountSinceCounts(init, start);
      var before := set i | 0 <= i < |init| && init[i].dateCreated >= start;
      if last.dateCreated >= start {
        assert matching == before + {|init|};
      } else {
        assert matching == before;
      }
    }
  }

  /** `CountBetween` is the number of positions of the listing holding a recording created in
      [lo, hi): the length of `filter(rec => created isBetween [lo, hi))`. */
  lemma {:induction false} CountBetweenCounts(recs: seq<Recording>, lo: int, hi: int)
    ensures CountBetween(recs, lo, hi) == |set i | 0 <= i < |recs| && lo <= recs[i].dateCreated < hi|
  {
    var matching := set i | 0 <= i < |recs| && lo <= recs[i].dateCreated < hi;
    if recs == [] {
      assert matching == {};
    } else {
      var init, last := recs[..|recs| - 1], recs[|recs| - 1];
      assert recs == init + [last];
      CountsAppend(init, [last], lo, hi);
      CountBetweenCounts(init, lo, hi);
      var before := set i | 0 <= i < |init| && lo <= init[i].dateCreated < hi;
      if lo <= last.dateCreated < hi {
        assert matching == before + {|init|};
      } else {
        assert matching == before;
      }
    }
  }

  /** A later start counts no more: a recording counted since `hi` is counted since `lo`. */
  lemma {:induction false} CountSinceAntitone(recs: seq<Recording>, lo: int, hi: int)
    requires lo <= hi
    ensures CountSince(recs, hi) <= CountSince(recs, lo)
  {
    if recs != [] {
      CountSinceAntitone(recs[1..], lo, hi);
    }
  }

  /** The window [lo, mid) and the window since `mid` are disjoint and together make up the
      window since `lo`. */
  lemma {:induction false} CountSinceSplits(recs: seq<Recording>, lo: int, mid: int)
    requires lo <= mid
    ensures CountSince(recs, lo) == CountBetween(recs, lo, mid) + CountSince(recs, mid)
  {
    if recs != [] {
      CountSinceSplits(recs[1..], lo, mid);
    }
  }

  /** `getAudioStats` over the provider's listing (`None` when the call fails). */
  function GetAudioStats(listing: Option<seq<Recording>>, d: DayStarts): (r: Outcome<AudioStats>)
    ensures r.Failed? <==> listing.None?
    ensures r.Failed? ==> r.code == 500
    ensures r.Ok? ==> r.value.today <= 1000 && r.value.yesterday <= 1000
    ensures r.Ok? ==> r.value.last7Days <= 1000 && r.value.last30Days <= 1000
    ensures r.Ok? ==>
      var recs := Fetched(listing.value);
      && r.value.today == CountSince(recs, d.today)
      && r.value.yesterday == CountBetween(recs, d.yesterday, d.today)
      && r.value.last7Days == CountSince(recs, d.last7Days)
      && r.value.last30Days == CountSince(recs, d.last30Days)
  {
    if listing.None? then Failed(500)
    else
      var recs := Fetched(listing.value);
      Ok(AudioStats(CountSince(recs, d.today), CountBetween(recs, d.yesterday, d.today),
                    CountSince(recs, d.last7Days), CountSince(recs, d.last30Days)))
  }

  /** The windows nest: today's count is within the last seven days' and that within the last
      thirty days'; yesterday is disjoint from today, so both together are within the last
      seven days. */
  lemma StatsWindowsNest(listing: seq<Recording>, d: DayStarts)
    requires Chronological(d)
    ensures var s := GetAudioStats(Some(listing), d).value;
            && s.today <= s.last7Days <= s.last30Days
            && s.today + s.yesterday <= s.last7Days
  {
    var recs := Fetched(listing);
    CountSinceAntitone(recs, d.last30Days, d.last7Days);
    CountSinceSplits(recs, d.yesterday, d.today);
    CountSinceAntitone(recs, d.last7Days, d.yesterday);
  }
}
