/** Paging of archived log lines by cursor, and of evidence files by offset. */
module Pages {
  import opened Common
  import Text
  import Decimal

  // ---------- one page of matching lines ----------

  const LOG_LIMIT := 100

  function Limit(asked: int): (n: nat)
    ensures 1 <= n <= LOG_LIMIT
  {
    if asked <= 0 || asked > LOG_LIMIT then LOG_LIMIT else asked
  }

  function Matching<T>(lines: seq<T>, match_: T -> bool): seq<T> {
    if lines == [] then []
    else
      var rest := Matching(lines[..|lines| - 1], match_);
      if match_(lines[|lines| - 1]) then rest + [lines[|lines| - 1]] else rest
  }

  /** The matching lines of a log read in two parts are those of the first and then those of the second, and a single
      line is among them just when it matches. */
  lemma {:induction false} MatchingMeaning<T>(a: seq<T>, b: seq<T>, line: T, match_: T -> bool)
    ensures Matching(a + b, match_) == Matching(a, match_) + Matching(b, match_)
    ensures Matching([line], match_) == if match_(line) then [line] else []
    decreases |b|
  {
    assert [line][..0] == [];
    if b == [] {
      assert a + b == a;
    } else {
      assert (a + b)[..|a + b| - 1] == a + b[..|b| - 1];
      MatchingMeaning(a, b[..|b| - 1], line, match_);
    }
  }

  datatype Page<T> = Page(entries: seq<T>, next: Option<nat>, total: nat)

  function Upto(n: nat, i: nat): nat { if i <= n then i else n }

  /** The slice of the matching lines that a page shows. */
  function PageOf<T>(matching: seq<T>, start: nat, limit: nat): Page<T> {
    var from, to := Upto(|matching|, start), Upto(|matching|, start + limit);
    Page(matching[from..to], if start + limit < |matching| then Some(start + limit) else None, |matching|)
  }

  lemma PageSize<T>(matching: seq<T>, start: nat, asked: int)
    ensures var limit := if 1 <= asked <= 100 then asked else 100;
            var left := if start < |matching| then |matching| - start else 0;
            |PageOf(matching, start, Limit(asked)).entries| == if left < limit then left else limit
  {
  }

  lemma MatchingNone<T>(match_: T -> bool, start: nat, limit: nat)
    ensures Matching([], match_) == [] && PageOf(Matching([], match_), start, limit) == Page([], None, 0)
  {
  }

  /** One more matching line either joins the page, or shows that there is a next one, or is only counted. */
  lemma PageStep<T>(matching: seq<T>, line: T, start: nat, limit: nat)
    requires limit >= 1
    ensures var page := PageOf(matching, start, limit);
            && page.total == |matching|
            && PageOf(matching + [line], start, limit) ==
               if |matching| < start || page.next.Some? then Page(page.entries, page.next, page.total + 1)
               else if |page.entries| == limit then Page(page.entries, Some(start + limit), page.total + 1)
               else Page(page.entries + [line], None, page.total + 1)
  {
    var n := |matching|;
    var from, to := Upto(n, start), Upto(n, start + limit);
    var after := matching + [line];
    if n >= start + limit {
      assert after[from..to] == matching[from..to];
    } else if n >= start {
      assert after[from..n + 1] == matching[from..n] + [line];
    } else {
      assert after[n + 1..n + 1] == matching[n..n] == [];
    }
  }

  lemma MatchingSnoc<T>(lines: seq<T>, match_: T -> bool, i: nat)
    requires i < |lines|
    ensures Matching(lines[..i + 1], match_) ==
              Matching(lines[..i], match_) + if match_(lines[i]) then [lines[i]] else []
  {
    assert lines[..i + 1][..i] == lines[..i];
  }

  /** The scan of Logs: it counts every match, but keeps only those of the page and stops keeping once it knows
      of a next page. */
  method LogPage<T>(lines: seq<T>, match_: T -> bool, start: nat, asked: int) returns (page: Page<T>)
    ensures page == PageOf(Matching(lines, match_), start, Limit(asked))
    ensures var limit := if 1 <= asked <= 100 then asked else 100;
            var left := if start < page.total then page.total - start else 0;
            |page.entries| == if left < limit then left else limit
  {
    hide Matching, Limit, PageOf;
    var limit := Limit(asked);
    var entries: seq<T> := [];
    var next: Option<nat> := None;
    var matched := 0;
    MatchingNone(match_, start, limit);
    for i := 0 to |lines|
      invariant matched == |Matching(lines[..i], match_)|
      invariant Page(entries, next, matched) == PageOf(Matching(lines[..i], match_), start, limit)
    {
      MatchingSnoc(lines, match_, i);
      ghost var before := Matching(lines[..i], match_);
      assert before + [] == before;
      PageStep(before, lines[i], start, limit);
      if match_(lines[i]) {
        matched := matched + 1;
        if matched > start && next.None? {
          if |entries| == limit {
            next := Some(start + limit);
          } else {
            entries := entries + [lines[i]];
          }
        }
      }
    }
    assert lines[..|lines|] == lines;
    page := Page(entries, next, matched);
    PageSize(Matching(lines, match_), start, asked);
  }

  // ---------- the cursor's text ----------

  /** A read's window in nanoseconds, and the fingerprint of its filter, empty when there is none. */
  datatype Window = Window(from: int, to: int, filter: string)

  datatype Cursor = Cursor(index: int, window: Window)

  const MAX_WINDOW: int := 31 * 24 * 3600 * 1_000_000_000

  function Format(c: Cursor): string {
    Decimal.FormatInt(c.index) + "-" + (Decimal.FormatInt(c.window.from) + "-" +
      (Decimal.FormatInt(c.window.to) + if c.window.filter == "" then "" else "-" + c.window.filter))
  }

  /** strings.Split on a dash. */
  function Split(s: string): (parts: seq<string>)
    ensures parts != []
    decreases |s|
  {
    var i := Text.IndexOf(s, '-');
    if i == |s| then [s] else [s[..i]] + Split(s[i + 1..])
  }

  function Parse(raw: string): Option<Cursor> {
    var parts := Split(raw);
    if |parts| != 3 && |parts| != 4 then None
    else if |parts| == 4 && parts[3] == "" then None
    else
      var index, from, to := Decimal.ParseInt(parts[0]), Decimal.ParseInt(parts[1]), Decimal.ParseInt(parts[2]);
      if index.None? || from.None? || to.None? || index.value < 0 then None
      else if to.value < from.value || to.value - from.value > MAX_WINDOW then None
      else Some(Cursor(index.value, Window(from.value, to.value, if |parts| == 4 then parts[3] else "")))
  }

  lemma SplitOne(a: string)
    requires '-' !in a
    ensures Split(a) == [a]
  {
  }

  lemma SplitFirst(a: string, b: string)
    requires '-' !in a
    ensures Split(a + "-" + b) == [a] + Split(b)
  {
    var s := a + "-" + b;
    assert s[|a|] == '-';
    var i := Text.IndexOf(s, '-');
    assert forall k :: 0 <= k < |a| ==> s[k] == a[k];
    assert forall k :: 0 <= k < i ==> s[..i][k] == s[k];
    assert i == |a|;
    assert s[..i] == a && s[i + 1..] == b;
  }

  lemma DigitsHaveNoDash(s: string)
    requires Decimal.AllDigits(s)
    ensures '-' !in s
  {
  }

  predicate Is64(n: int) { -(Decimal.MAX_INT64 as int) - 1 <= n <= Decimal.MAX_INT64 }

  /** A window that starts at or after the epoch, runs forward and is no longer than thirty-one days. */
  predicate Readable(w: Window) { 0 <= w.from <= w.to && w.to - w.from <= MAX_WINDOW }

  /** A cursor reads back as it was written exactly when its window is readable, and is refused otherwise. */
  lemma CursorRoundTrip(c: Cursor)
    requires 0 <= c.index && Is64(c.index) && Is64(c.window.from) && Is64(c.window.to) && '-' !in c.window.filter
    ensures Parse(Format(c)) == if Readable(c.window) then Some(c) else None
  {
    hide Split, Decimal.FormatInt, Decimal.ParseInt;
    var w := c.window;
    var i, f, t := Decimal.FormatInt(c.index), Decimal.FormatInt(w.from), Decimal.FormatInt(w.to);
    var end := t + if w.filter == "" then "" else "-" + w.filter;
    DigitsHaveNoDash(i);
    SplitFirst(i, f + "-" + end);
    assert Format(c) == i + "-" + (f + "-" + end);
    Decimal.ParseIntOfFormat(c.index);
    Decimal.ParseIntOfFormat(w.from);
    Decimal.ParseIntOfFormat(w.to);
    if w.from < 0 {
      NegativePart(w.from, "-" + end);
      assert f + ("-" + end) == f + "-" + end;
    } else {
      DigitsHaveNoDash(f);
      SplitFirst(f, end);
      if w.to < 0 {
        NegativePart(w.to, if w.filter == "" then "" else "-" + w.filter);
      } else {
        DigitsHaveNoDash(t);
        SplitOne(w.filter);
        if w.filter == "" {
          SplitOne(t);
          assert end == t;
        } else {
          SplitFirst(t, w.filter);
          assert end == t + "-" + w.filter;
        }
      }
    }
  }

  /** A negative number opens with the dash that separates parts, so its own part reads as empty. */
  lemma NegativePart(n: int, rest: string)
    requires n < 0
    ensures Split(Decimal.FormatInt(n) + rest)[0] == "" && Decimal.ParseInt("") == None
  {
    var s := Decimal.FormatInt(n) + rest;
    assert s == "" + "-" + (Decimal.Format(-n) + rest);
    SplitFirst("", Decimal.Format(-n) + rest);
  }

  // ---------- following the cursors ----------

  /** What a reader collects who sends each page's cursor back, asking for any number of lines each time; nothing
      when a cursor is refused. */
  ghost function Follow<T>(matching: seq<T>, asked: nat -> int, n: nat, start: nat, w: Window): Option<seq<T>>
    decreases |matching| - start
  {
    var page := PageOf(matching, start, Limit(asked(n)));
    match page.next
    case None => Some(page.entries)
    case Some(k) =>
      var c := Parse(Format(Cursor(k, w)));
      if c.None? || c.value.window != w || c.value.index <= start then None
      else
        match Follow(matching, asked, n + 1, c.value.index, w)
        case None => None
        case Some(rest) => Some(page.entries + rest)
  }

  /** Following every cursor gives each remaining line exactly once and in order, unless a second page is needed
      in a window whose cursors cannot be read back. */
  lemma {:induction false} FollowPartitions<T>(matching: seq<T>, asked: nat -> int, n: nat, start: nat, w: Window)
    requires start <= |matching| <= Decimal.MAX_INT64 && Is64(w.from) && Is64(w.to) && '-' !in w.filter
    ensures Follow(matching, asked, n, start, w) ==
              if |matching| - start <= Limit(asked(n)) || Readable(w) then Some(matching[start..]) else None
    decreases |matching| - start
  {
    hide Parse, Format, Readable;
    var limit := Limit(asked(n));
    assert matching[start..|matching|] == matching[start..];
    if start + limit < |matching| {
      CursorRoundTrip(Cursor(start + limit, w));
      if Readable(w) {
        FollowPartitions(matching, asked, n + 1, start + limit, w);
        assert matching[start..start + limit] + matching[start + limit..] == matching[start..];
      }
    }
  }

  // ---------- evidence ----------

  const LINE_BYTES := 65536
  const PAGE_BYTES := 1048576

  /** cutLine, on the bytes of a line; tidy drops what is not valid UTF-8. */
  function CutLine(tidy: string -> string, line: string): string {
    if |line| <= LINE_BYTES then line
    else tidy(line[..LINE_BYTES]) + Notice(|line| - LINE_BYTES)
  }

  function Notice(n: nat): string { " \U{e2}\U{80}\U{a6} (" + Decimal.Format(n) + " bytes cut)" }

  /** The notice at the end of a cut line, whose number reads as the bytes that were cut. */
  ghost predicate Tells(notice: string, n: nat) {
    exists d :: Decimal.ParseInt(d) == Some(n) && notice == " \U{e2}\U{80}\U{a6} (" + d + " bytes cut)"
  }

  /** How a page shows a line: of at most 64 KiB as it is, a longer one by its tidied first 64 KiB and a notice. */
  ghost predicate ShownAs(tidy: string -> string, line: string, shown: string) {
    if |line| <= 65536 then shown == line
    else
      var start := tidy(line[..65536]);
      start <= shown && Tells(shown[|start|..], |line| - 65536)
  }

  ghost predicate AllShown(tidy: string -> string, lines: seq<string>, shown: seq<string>) {
    |shown| <= |lines| && forall k :: 0 <= k < |shown| ==> ShownAs(tidy, lines[k], shown[k])
  }

  lemma CutLineShows(tidy: string -> string, line: string)
    requires |line| <= Decimal.MAX_INT64
    ensures ShownAs(tidy, line, CutLine(tidy, line))
  {
    if |line| > LINE_BYTES {
      NoticeTells(|line| - LINE_BYTES);
      hide Tells, Decimal.Format;
      var start, shown := tidy(line[..LINE_BYTES]), CutLine(tidy, line);
      assert shown == start + Notice(|line| - LINE_BYTES);
      assert shown[|start|..] == Notice(|line| - LINE_BYTES);
    }
  }

  lemma NoticeTells(n: nat)
    requires n <= Decimal.MAX_INT64
    ensures Tells(Notice(n), n)
  {
    hide Decimal.Format, Decimal.ParseInt;
    Decimal.ParseIntOfFormat(n);
    assert Decimal.ParseInt(Decimal.Format(n)) == Some(n);
  }

  function PowerOfTen(k: nat): nat { if k == 0 then 1 else 10 * PowerOfTen(k - 1) }

  lemma {:induction false} FormatLength(n: nat, k: nat)
    requires k >= 1 && n < PowerOfTen(k)
    ensures |Decimal.Format(n)| <= k
  {
    if n >= 10 {
      FormatLength(n / 10, k - 1);
    }
  }

  lemma CutLineBounded(tidy: string -> string, line: string)
    requires |line| <= Decimal.MAX_INT64 && forall s :: |tidy(s)| <= |s|
    ensures |CutLine(tidy, line)| <= LINE_BYTES + 36 < PAGE_BYTES
  {
    if |line| > LINE_BYTES {
      assert PowerOfTen(5) == 100000;
      assert PowerOfTen(10) == 10_000_000_000;
      assert PowerOfTen(15) == 1_000_000_000_000_000;
      assert PowerOfTen(19) == 10_000_000_000_000_000_000;
      FormatLength(|line| - LINE_BYTES, 19);
    }
  }

  function Bytes(lines: seq<string>): nat {
    if lines == [] then 0 else Bytes(lines[..|lines| - 1]) + |lines[|lines| - 1]|
  }

  lemma {:induction false} BytesMeaning(a: seq<string>, b: seq<string>, line: string)
    ensures Bytes(a + b) == Bytes(a) + Bytes(b) && Bytes([line]) == |line|
    decreases |b|
  {
    assert [line][..0] == [];
    if b == [] {
      assert a + b == a;
    } else {
      assert (a + b)[..|a + b| - 1] == a + b[..|b| - 1];
      BytesMeaning(a, b[..|b| - 1], line);
    }
  }

  function CutAll(tidy: string -> string, lines: seq<string>): (r: seq<string>)
    ensures |r| == |lines| && forall i :: 0 <= i < |lines| ==> r[i] == CutLine(tidy, lines[i])
  {
    seq(|lines|, i requires 0 <= i < |lines| => CutLine(tidy, lines[i]))
  }

  /** A page from offset to end holds all it can: it stops at the last line, at its limit of lines, or before the
      line that would pass the byte bound. */
  predicate FullPage(cut: seq<string>, offset: nat, limit: nat, end: nat) {
    && offset <= end <= |cut| && end <= offset + limit
    && (offset < |cut| ==> offset < end)
    && Bytes(cut[offset..end]) <= PAGE_BYTES
    && (end < |cut| && end < offset + limit ==> Bytes(cut[offset..end + 1]) > PAGE_BYTES)
  }

  datatype EvidencePage = EvidencePage(lines: seq<string>, total: nat, next: Option<nat>)

  /** The page loop of EvidencePage, on the redacted lines of a file. */
  method ReadEvidence(tidy: string -> string, lines: seq<string>, offset: int, asked: int)
    returns (r: Result<EvidencePage, string>)
    requires forall i :: 0 <= i < |lines| ==> |lines[i]| <= Decimal.MAX_INT64
    requires forall s :: |tidy(s)| <= |s|
    ensures r.Ok? <==> 0 <= offset <= |lines| && 0 <= asked <= 1000
    ensures r.Ok? ==> (var limit := if asked == 0 then 200 else asked;
              && r.value.total == |lines|
              && FullPage(CutAll(tidy, lines), offset, limit, offset + |r.value.lines|)
              && r.value.lines == CutAll(tidy, lines)[offset..offset + |r.value.lines|]
              && r.value.next == if offset + |r.value.lines| < |lines| then Some(offset + |r.value.lines|) else None)
    ensures r.Ok? ==> offset + |r.value.lines| <= |lines| && AllShown(tidy, lines[offset..], r.value.lines)
  {
    hide CutLine, Bytes, FullPage, ShownAs;
    var limit := if asked == 0 then 200 else asked;
    if offset < 0 || limit < 1 || limit > 1000 || offset > |lines| {
      return Err("invalid evidence query");
    }
    ghost var cut := CutAll(tidy, lines);
    var page: seq<string> := [];
    var end, size := offset, 0;
    BytesNone();
    while end < |lines| && end < offset + limit
      invariant offset <= end <= |lines| && end <= offset + limit
      invariant page == cut[offset..end] && size == Bytes(cut[offset..end]) <= PAGE_BYTES
      decreases |lines| - end
    {
      var line := CutLine(tidy, lines[end]);
      BytesSnoc(cut, offset, end);
      if size + |line| > PAGE_BYTES && end > offset {
        break;
      }
      CutLineBounded(tidy, lines[end]);
      assert end == offset ==> size == 0;
      page := page + [line];
      size := size + |line|;
      end := end + 1;
    }
    IsFull(cut, offset, limit, end);
    forall k | 0 <= k < |page| ensures ShownAs(tidy, lines[offset..][k], page[k]) {
      CutLineShows(tidy, lines[offset + k]);
    }
    r := Ok(EvidencePage(page, |lines|, if end < |lines| then Some(end) else None));
  }

  lemma BytesNone()
    ensures Bytes([]) == 0
  {
  }

  lemma BytesSnoc(cut: seq<string>, offset: nat, end: nat)
    requires offset <= end < |cut|
    ensures cut[offset..end + 1] == cut[offset..end] + [cut[end]]
    ensures Bytes(cut[offset..end + 1]) == Bytes(cut[offset..end]) + |cut[end]|
  {
    assert cut[offset..end + 1][..end - offset] == cut[offset..end];
  }

  lemma IsFull(cut: seq<string>, offset: nat, limit: nat, end: nat)
    requires offset <= end <= |cut| && end <= offset + limit && Bytes(cut[offset..end]) <= PAGE_BYTES && limit >= 1
    requires end < |cut| && end < offset + limit ==> end > offset && Bytes(cut[offset..end]) + |cut[end]| > PAGE_BYTES
    ensures FullPage(cut, offset, limit, end)
  {
    if end < |cut| {
      BytesSnoc(cut, offset, end);
    }
  }

  /** The page a full page's conditions determine is the only one. */
  lemma FullPageUnique(cut: seq<string>, offset: nat, limit: nat, a: nat, b: nat)
    requires FullPage(cut, offset, limit, a) && FullPage(cut, offset, limit, b)
    ensures a == b
  {
    if a < b {
      BytesGrow(cut, offset, a + 1, b);
    } else if b < a {
      BytesGrow(cut, offset, b + 1, a);
    }
  }

  lemma {:induction false} BytesGrow(cut: seq<string>, offset: nat, i: nat, j: nat)
    requires offset <= i <= j <= |cut|
    ensures Bytes(cut[offset..i]) <= Bytes(cut[offset..j])
  {
    if i < j {
      BytesGrow(cut, offset, i, j - 1);
      assert cut[offset..j][..j - offset - 1] == cut[offset..j - 1];
    }
  }

  /** Ends of the pages a reader sees who follows NextOffset from the start of a file. */
  predicate PageEnds(cut: seq<string>, limits: seq<nat>, ends: seq<nat>) {
    && |ends| == |limits| + 1 && ends[0] == 0 && ends[|ends| - 1] == |cut|
    && forall k :: 0 <= k < |limits| ==> ends[k] < |cut| && FullPage(cut, ends[k], limits[k], ends[k + 1])
  }

  function Joined(cut: seq<string>, ends: seq<nat>): seq<string>
    requires forall k :: 0 <= k < |ends| ==> ends[k] <= |cut|
    requires forall k :: 0 <= k < |ends| - 1 ==> ends[k] <= ends[k + 1]
  {
    if |ends| <= 1 then [] else Joined(cut, ends[..|ends| - 1]) + cut[ends[|ends| - 2]..ends[|ends| - 1]]
  }

  lemma {:induction false} JoinedIsPrefix(cut: seq<string>, ends: seq<nat>)
    requires ends != [] && ends[0] == 0
    requires forall k :: 0 <= k < |ends| ==> ends[k] <= |cut|
    requires forall k :: 0 <= k < |ends| - 1 ==> ends[k] <= ends[k + 1]
    ensures Joined(cut, ends) == cut[..ends[|ends| - 1]]
  {
    if |ends| > 1 {
      var n := |ends| - 1;
      JoinedIsPrefix(cut, ends[..n]);
      assert cut[..ends[n - 1]] + cut[ends[n - 1]..ends[n]] == cut[..ends[n]];
    }
  }

  /** Following NextOffset to its end shows every line of the file once, in order, in at most one page a line. */
  lemma EvidencePagesPartition(cut: seq<string>, limits: seq<nat>, ends: seq<nat>)
    requires PageEnds(cut, limits, ends)
    ensures (forall k :: 0 <= k < |ends| ==> ends[k] <= |cut|) &&
            (forall k :: 0 <= k < |ends| - 1 ==> ends[k] <= ends[k + 1])
    ensures Joined(cut, ends) == cut
    ensures |limits| <= |cut|
  {
    forall k {:trigger limits[k]} | 0 <= k < |limits| ensures ends[k] < ends[k + 1] <= |cut| {
      assert FullPage(cut, ends[k], limits[k], ends[k + 1]);
    }
    JoinedIsPrefix(cut, ends);
    assert cut[..|cut|] == cut;
    EndsSpread(ends, |limits|);
  }

  /** From a page that fits so far, the loop reaches its end. */
  lemma {:induction false} PageReached(cut: seq<string>, offset: nat, limit: nat, so: nat) returns (end: nat)
    requires offset < so <= |cut| && so <= offset + limit && Bytes(cut[offset..so]) <= PAGE_BYTES
    ensures FullPage(cut, offset, limit, end)
    decreases |cut| - so
  {
    if so < |cut| && so < offset + limit && Bytes(cut[offset..so]) + |cut[so]| <= PAGE_BYTES {
      BytesSnoc(cut, offset, so);
      end := PageReached(cut, offset, limit, so + 1);
    } else {
      end := so;
      IsFull(cut, offset, limit, end);
    }
  }

  /** For any positive limits, following NextOffset from the start of a file does come to its end. */
  lemma EvidencePagesEnd(cut: seq<string>, limits: nat -> nat) returns (used: seq<nat>, ends: seq<nat>)
    requires (forall k :: limits(k) >= 1) && forall i :: 0 <= i < |cut| ==> |cut[i]| <= PAGE_BYTES
    ensures PageEnds(cut, used, ends) && forall k :: 0 <= k < |used| ==> used[k] == limits(k)
  {
    hide FullPage, Bytes;
    used, ends := [], [0];
    while ends[|ends| - 1] < |cut|
      invariant |ends| == |used| + 1 && ends[0] == 0 && ends[|ends| - 1] <= |cut|
      invariant forall k :: 0 <= k < |used| ==> used[k] == limits(k)
      invariant forall k :: 0 <= k < |used| ==> ends[k] < |cut| && FullPage(cut, ends[k], used[k], ends[k + 1])
      decreases |cut| - ends[|ends| - 1]
    {
      var offset, limit := ends[|ends| - 1], limits(|used|);
      FirstLineFits(cut, offset);
      var end := PageReached(cut, offset, limit, offset + 1);
      PageMoves(cut, offset, limit, end);
      used, ends := used + [limit], ends + [end];
    }
  }

  lemma FirstLineFits(cut: seq<string>, offset: nat)
    requires offset < |cut| && |cut[offset]| <= PAGE_BYTES
    ensures Bytes(cut[offset..offset + 1]) <= PAGE_BYTES
  {
    assert cut[offset..offset] == [];
    BytesSnoc(cut, offset, offset);
  }

  lemma PageMoves(cut: seq<string>, offset: nat, limit: nat, end: nat)
    requires FullPage(cut, offset, limit, end) && offset < |cut|
    ensures offset < end <= |cut|
  {
  }

  lemma {:induction false} EndsSpread(ends: seq<nat>, k: nat)
    requires k < |ends| && forall i :: 0 <= i < |ends| - 1 ==> ends[i] < ends[i + 1]
    ensures ends[k] >= k
  {
    if k > 0 {
      EndsSpread(ends, k - 1);
    }
  }
}
