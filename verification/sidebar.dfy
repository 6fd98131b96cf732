/** The chat-history sidebar (components/ChatHistorySidebar.js): loading the user's sessions,
    searching them by title, grouping them by recency, and deleting and renaming them. Dates are
    abstracted to a local calendar day number and an absolute millisecond timestamp. */
module Sidebar {
  import opened Wrappers
  import opened Text
  import opened Seqs

  /** A moment: its local calendar day number and its absolute time in milliseconds. */
  datatype Instant = Instant(day: int, ms: int)

  /** A stored session as listed; `updatedAt` is `None` when `updated_at` does not parse. */
  datatype SessionRow = SessionRow(id: String, title: String, updatedAt: Option<Instant>)

  /** The current time as grouping sees it: today's day number and the time of today's local
      midnight. */
  datatype Clock = Clock(today: int, midnightMs: int)

  const DayMs: int := 24 * 60 * 60 * 1000

  /** Today's midnight minus seven days of milliseconds. */
  function WeekStartMs(now: Clock): int {
    now.midnightMs - 7 * DayMs
  }

  datatype Bucket = Today | Yesterday | ThisWeek | Older

  /** The bucket of one session, decided in the source's order: same day; the day before; a
      timestamp (not a day) no earlier than the week start; everything else, including dates that
      do not parse, whose comparisons are all false. */
  function BucketOf(now: Clock, row: SessionRow): (b: Bucket)
    ensures b == Today <==> row.updatedAt.Some? && row.updatedAt.value.day == now.today
    ensures b == Yesterday <==> row.updatedAt.Some? && row.updatedAt.value.day == now.today - 1
    ensures b == ThisWeek <==>
              (row.updatedAt.Some? && row.updatedAt.value.day != now.today
               && row.updatedAt.value.day != now.today - 1 && row.updatedAt.value.ms >= WeekStartMs(now))
    ensures b == Older <==>
              (row.updatedAt.None? || (row.updatedAt.value.day != now.today
               && row.updatedAt.value.day != now.today - 1 && row.updatedAt.value.ms < WeekStartMs(now)))
  {
    match row.updatedAt
    case None => Older
    case Some(t) =>
      if t.day == now.today then Today
      else if t.day == now.today - 1 then Yesterday
      else if t.ms >= WeekStartMs(now) then ThisWeek
      else Older
  }

  /** A session dated after today's midnight but on another calendar day (a future date) is put
      in "this week". */
  lemma FutureIsThisWeek(now: Clock, row: SessionRow)
    requires row.updatedAt.Some? && row.updatedAt.value.day > now.today
    requires row.updatedAt.value.ms >= now.midnightMs
    ensures BucketOf(now, row) == ThisWeek
  {
  }

  /** The four recency buckets, each in input order. */
  datatype Groups = Groups(today: seq<SessionRow>, yesterday: seq<SessionRow>,
                           thisWeek: seq<SessionRow>, older: seq<SessionRow>)
  {
    function Get(b: Bucket): seq<SessionRow> {
      match b
      case Today => today
      case Yesterday => yesterday
      case ThisWeek => thisWeek
      case Older => older
    }

    /** `groups[b].push(row)`. */
    function Push(b: Bucket, row: SessionRow): (g: Groups)
      ensures g.Get(b) == Get(b) + [row]
      ensures forall c :: c != b ==> g.Get(c) == Get(c)
    {
      match b
      case Today => this.(today := today + [row])
      case Yesterday => this.(yesterday := yesterday + [row])
      case ThisWeek => this.(thisWeek := thisWeek + [row])
      case Older => this.(older := older + [row])
    }
  }

  function InBucket(now: Clock, b: Bucket): SessionRow -> bool {
    (row: SessionRow) => BucketOf(now, row) == b
  }

  /** Pushing the next session onto its bucket keeps every bucket equal to the filtered input. */
  lemma PushKeepsFilters(now: Clock, g: Groups, init: seq<SessionRow>, last: SessionRow, b: Bucket)
    requires g.Get(b) == Filter(InBucket(now, b), init)
    ensures g.Push(BucketOf(now, last), last).Get(b) == Filter(InBucket(now, b), init + [last])
  {
    FilterAppend(InBucket(now, b), init, [last]);
    FilterSingleton(InBucket(now, b), last);
  }

  /** groupSessionsByDate: one pass over the sessions, pushing each onto its bucket. No session
      is lost or duplicated in count. */
  function GroupSessions(now: Clock, rows: seq<SessionRow>): (g: Groups)
    ensures |g.today| + |g.yesterday| + |g.thisWeek| + |g.older| == |rows|
    decreases |rows|
  {
    if |rows| == 0 then Groups([], [], [], [])
    else GroupSessions(now, rows[..|rows| - 1]).Push(BucketOf(now, rows[|rows| - 1]), rows[|rows| - 1])
  }

  /** Each bucket is exactly the input filtered to that bucket, in input order. */
  lemma {:induction false} GroupingFilters(now: Clock, rows: seq<SessionRow>, b: Bucket)
    ensures GroupSessions(now, rows).Get(b) == Filter(InBucket(now, b), rows)
    decreases |rows|
  {
    if |rows| > 0 {
      var init := rows[..|rows| - 1];
      var last := rows[|rows| - 1];
      GroupingFilters(now, init, b);
      assert rows == init + [last];
      PushKeepsFilters(now, GroupSessions(now, init), init, last, b);
    }
  }

  /** The four buckets' contents taken together. */
  function AllBuckets(g: Groups): multiset<SessionRow> {
    multiset(g.today) + multiset(g.yesterday) + multiset(g.thisWeek) + multiset(g.older)
  }

  lemma PushAddsOne(g: Groups, b: Bucket, row: SessionRow)
    ensures AllBuckets(g.Push(b, row)) == AllBuckets(g) + multiset{row}
  {
  }

  /** Grouping is a partition: the four buckets together hold every input session exactly as
      often as the input does, and no other. */
  lemma {:induction false} GroupingPartitions(now: Clock, rows: seq<SessionRow>)
    ensures AllBuckets(GroupSessions(now, rows)) == multiset(rows)
    decreases |rows|
  {
    if |rows| > 0 {
      var init := rows[..|rows| - 1];
      var last := rows[|rows| - 1];
      GroupingPartitions(now, init);
      assert rows == init + [last];
      assert multiset(rows) == multiset(init) + multiset{last};
      var g0 := GroupSessions(now, init);
      assert GroupSessions(now, rows) == g0.Push(BucketOf(now, last), last);
      PushAddsOne(g0, BucketOf(now, last), last);
    }
  }

  /** A session is in exactly one bucket, the one its date selects. */
  lemma InExactlyOneBucket(now: Clock, rows: seq<SessionRow>, row: SessionRow, b: Bucket)
    requires row in rows
    ensures row in GroupSessions(now, rows).Get(b) <==> BucketOf(now, row) == b
  {
    GroupingFilters(now, rows, b);
  }

  // ---------------------------------------------------------------------------------------------
  // Search

  function MatchesTerm(term: String): SessionRow -> bool {
    (row: SessionRow) => Includes(Lower(row.title), Lower(term))
  }

  /** filteredSessions: the sessions whose lower-cased title includes the lower-cased term, in
      their original order; an empty term keeps every session. For a list without repeated rows
      (the store's rows have unique ids) membership and order pin the result down. */
  function SearchSessions(rows: seq<SessionRow>, term: String): (r: seq<SessionRow>)
    ensures forall row :: row in r <==> row in rows && Includes(Lower(row.title), Lower(term))
    ensures IsSubsequence(r, rows)
    ensures term == [] ==> r == rows
  {
    if term == [] then
      assert forall i :: 0 <= i < |rows| ==> MatchesTerm(term)(rows[i]) by {
        forall i | 0 <= i < |rows| ensures MatchesTerm(term)(rows[i]) {
          IncludesEmpty(Lower(rows[i].title));
        }
      }
      FilterAll(MatchesTerm(term), rows);
      Filter(MatchesTerm(term), rows)
    else
      Filter(MatchesTerm(term), rows)
  }

  // ---------------------------------------------------------------------------------------------
  // Sidebar state and its transitions

  datatype SidebarState = SidebarState(
    sessions: seq<SessionRow>,
    loading: bool,
    searchTerm: String,
    editingId: Option<String>,
    editTitle: String)

  /** What the session store answered: returned (with or without an error) or threw. */
  datatype StoreResult = Returned(failed: bool) | Threw

  predicate Succeeded(r: StoreResult) {
    r == Returned(false)
  }

  /** The answer to `getChatSessions`: the rows (possibly `null`) and whether an error came back. */
  datatype ListResult = ListReturned(data: Option<seq<SessionRow>>, failed: bool) | ListThrew

  /** loadChatSessions: a clean answer replaces the list (a missing list reads as empty); an error
      or exception keeps it. Loading is off afterwards either way. */
  function LoadSessions(st: SidebarState, result: ListResult): (r: SidebarState)
    ensures !r.loading
    ensures result.ListReturned? && !result.failed ==> r.sessions == result.data.GetOr([])
    ensures !(result.ListReturned? && !result.failed) ==> r.sessions == st.sessions
    ensures r.searchTerm == st.searchTerm && r.editingId == st.editingId && r.editTitle == st.editTitle
  {
    match result
    case ListReturned(data, failed) =>
      if failed then st.(loading := false) else st.(sessions := data.GetOr([]), loading := false)
    case ListThrew => st.(loading := false)
  }

  /** The effect of a delete: the new state, the id sent to the store, whether the chat view is
      told to start a new chat, and whether the failure alert is shown. */
  datatype Deletion = Deletion(state: SidebarState, request: Option<String>, startNewChat: bool, alerted: bool)

  function WithoutId(id: String): SessionRow -> bool {
    (row: SessionRow) => row.id != id
  }

  /** handleDeleteSession: nothing without confirmation; otherwise the store is asked. On success
      exactly the sessions with that id disappear, the others keep their order, and a new chat is
      started exactly when the deleted session is the open one. On failure the list is kept and an
      alert is shown. For a list without repeated rows (the store's rows have unique ids)
      membership and order pin the new list down. */
  function DeleteSession(st: SidebarState, currentId: Option<String>, id: String, confirmed: bool,
                         result: StoreResult): (d: Deletion)
    ensures !confirmed ==> d == Deletion(st, None, false, false)
    ensures confirmed ==> d.request == Some(id)
    ensures confirmed && Succeeded(result) ==>
              && (forall row :: row in d.state.sessions <==> row in st.sessions && row.id != id)
              && IsSubsequence(d.state.sessions, st.sessions)
              && d.state == st.(sessions := d.state.sessions)
              && (d.startNewChat <==> currentId == Some(id))
              && !d.alerted
    ensures confirmed && !Succeeded(result) ==> d.state == st && !d.startNewChat && d.alerted
  {
    if !confirmed then Deletion(st, None, false, false)
    else if Succeeded(result) then
      Deletion(st.(sessions := Filter(WithoutId(id), st.sessions)), Some(id), currentId == Some(id), false)
    else
      Deletion(st, Some(id), false, true)
  }

  /** A rename handed to the chat view (`onRenameChat(id, title)`). */
  datatype RenameCall = RenameCall(id: String, title: String)

  datatype RenameStep = RenameStep(state: SidebarState, request: Option<RenameCall>)

  /** `s.id === id ? {...s, title} : s` over the whole list. */
  function Retitle(rows: seq<SessionRow>, id: String, title: String): (r: seq<SessionRow>)
    ensures |r| == |rows|
    ensures forall i :: 0 <= i < |rows| ==>
              r[i] == if rows[i].id == id then rows[i].(title := title) else rows[i]
  {
    seq(|rows|, i requires 0 <= i < |rows| => if rows[i].id == id then rows[i].(title := title) else rows[i])
  }

  /** The guard of handleRenameSession as written: a non-blank new title that differs from the
      text in the editor. */
  predicate RenameProceeds(st: SidebarState, newTitle: String) {
    !IsBlank(newTitle) && newTitle != st.editTitle
  }

  /** handleRenameSession(id, newTitle), as written. When the guard passes, the trimmed title is
      sent; if the chat view does not throw, only the sessions with that id are retitled. The
      editor is closed in every case. */
  function RenameSession(st: SidebarState, id: String, newTitle: String, threw: bool): (r: RenameStep)
    ensures r.request.Some? <==> RenameProceeds(st, newTitle)
    ensures r.request.Some? ==> r.request.value == RenameCall(id, Trim(newTitle))
    ensures RenameProceeds(st, newTitle) && !threw ==> r.state.sessions == Retitle(st.sessions, id, Trim(newTitle))
    ensures !(RenameProceeds(st, newTitle) && !threw) ==> r.state.sessions == st.sessions
    ensures r.state.editingId.None? && r.state.editTitle == []
    ensures r.state.loading == st.loading && r.state.searchTerm == st.searchTerm
  {
    var closed := st.(editingId := None, editTitle := "");
    if !RenameProceeds(st, newTitle) then RenameStep(closed, None)
    else
      var call := RenameCall(id, Trim(newTitle));
      if threw then RenameStep(closed, Some(call))
      else RenameStep(closed.(sessions := Retitle(st.sessions, id, Trim(newTitle))), Some(call))
  }

  /** startEditing: open the editor on a session with its current title; nothing else changes. */
  function StartEditing(st: SidebarState, row: SessionRow): (r: SidebarState)
    ensures r.editingId == Some(row.id) && r.editTitle == row.title
    ensures r.sessions == st.sessions && r.loading == st.loading && r.searchTerm == st.searchTerm
  {
    st.(editingId := Some(row.id), editTitle := row.title)
  }

  /** Typing in the editor: the editor text becomes what was typed; nothing else changes. */
  function EditTitle(st: SidebarState, text: String): (r: SidebarState)
    ensures r.editTitle == text
    ensures r.sessions == st.sessions && r.editingId == st.editingId
    ensures r.loading == st.loading && r.searchTerm == st.searchTerm
  {
    st.(editTitle := text)
  }

  /** Enter or blur in the editor: both call sites pass the editor's own text as the new title,
      so the guard never passes: nothing is sent, the list stays as it was, and the editor
      closes. */
  function CommitEdit(st: SidebarState, id: String, threw: bool): (r: RenameStep)
    ensures r.request.None? && r.state.sessions == st.sessions
    ensures r.state.editingId.None? && r.state.editTitle == []
  {
    RenameSession(st, id, st.editTitle, threw)
  }

  /** Because the new title IS the editor text, the as-written guard never passes: committing an
      edit never reaches the store and never changes the list, whatever was typed. */
  lemma CommitEditNeverRenames(st: SidebarState, row: SessionRow, text: String, threw: bool)
    ensures var r := CommitEdit(EditTitle(StartEditing(st, row), text), row.id, threw);
      r.request.None? && r.state.sessions == st.sessions
  {
  }

  /** The title a row currently has in the list, if the id is listed. */
  function TitleOf(rows: seq<SessionRow>, id: String): Option<String> {
    if |rows| == 0 then None
    else if rows[0].id == id then Some(rows[0].title)
    else TitleOf(rows[1..], id)
  }

  /** The evidently intended guard: a non-blank title that differs from the session's stored
      title. */
  predicate RenameProceedsFixed(st: SidebarState, id: String, newTitle: String) {
    !IsBlank(newTitle) && Some(Trim(newTitle)) != TitleOf(st.sessions, id)
  }

  /** Commit with the intended guard: the editor text is compared with the listed title. */
  function CommitEditFixed(st: SidebarState, id: String, threw: bool): (r: RenameStep)
    ensures r.request.Some? <==> RenameProceedsFixed(st, id, st.editTitle)
    ensures r.request.Some? ==> r.request.value == RenameCall(id, Trim(st.editTitle))
    ensures RenameProceedsFixed(st, id, st.editTitle) && !threw ==>
              r.state.sessions == Retitle(st.sessions, id, Trim(st.editTitle))
    ensures !(RenameProceedsFixed(st, id, st.editTitle) && !threw) ==> r.state.sessions == st.sessions
    ensures r.state.editingId.None? && r.state.editTitle == []
    ensures r.state.loading == st.loading && r.state.searchTerm == st.searchTerm
  {
    var closed := st.(editingId := None, editTitle := "");
    if !RenameProceedsFixed(st, id, st.editTitle) then RenameStep(closed, None)
    else
      var call := RenameCall(id, Trim(st.editTitle));
      if threw then RenameStep(closed, Some(call))
      else RenameStep(closed.(sessions := Retitle(st.sessions, id, Trim(st.editTitle))), Some(call))
  }

  /** With the intended guard, editing a listed session to a different non-blank title sends the
      trimmed title and retitles exactly that session. */
  lemma CommitEditFixedRenames(st: SidebarState, row: SessionRow, text: String)
    requires row in st.sessions
    requires Distinct(st.sessions)
    requires forall other :: other in st.sessions && other.id == row.id ==> other == row
    requires !IsBlank(text) && Trim(text) != row.title
    ensures var r := CommitEditFixed(EditTitle(StartEditing(st, row), text), row.id, false);
      && r.request == Some(RenameCall(row.id, Trim(text)))
      && r.state.sessions == Retitle(st.sessions, row.id, Trim(text))
  {
    TitleOfListed(st.sessions, row);
  }

  /** The listed title of a session whose id is unique in the list is its own title. */
  lemma {:induction false} TitleOfListed(rows: seq<SessionRow>, row: SessionRow)
    requires row in rows
    requires forall other :: other in rows && other.id == row.id ==> other == row
    ensures TitleOf(rows, row.id) == Some(row.title)
    decreases |rows|
  {
    if rows[0] != row {
      assert rows[0].id != row.id;
      assert row in rows[1..];
      TitleOfListed(rows[1..], row);
    }
  }
}
