/** The chat controller (components/ChatInterface.jsx): the message list, the submit guard and the
    request it issues, the completion of a request, title derivation, the autosave decision, and
    the new/load/rename session operations. React state updates are modelled as functions from
    the current `ChatState`; the chat API and the session store are inputs. */
module Chat {
  import opened Wrappers
  import opened Text
  import opened Seqs
  import opened Recommend
  import Auth

  datatype Role = User | Assistant

  /** A chat message. `id` and `timestamp` come from the clock and are opaque here; `hasImage`
      and `isError` read `false` when the source leaves them undefined. */
  datatype Message = Message(
    id: int,
    role: Role,
    content: String,
    timestamp: String,
    hasImage: bool,
    isError: bool,
    recommendations: Option<seq<Recommendation>>)

  /** The file picked for upload; its contents never matter to the controller. */
  datatype Image = Image(name: String)

  /** The controller's React state (presentation toggles and the image preview left out). */
  datatype ChatState = ChatState(
    messages: seq<Message>,
    input: String,
    image: Option<Image>,
    busy: bool,
    panel: seq<Recommendation>,
    sessionId: Option<String>,
    title: String)

  const NewChatTitle: String := "New Chat"
  const TitleLimit: nat := 50
  const Ellipsis: String := "..."

  /** The state the controller mounts with. */
  function InitialChat(): (st: ChatState)
    ensures st.messages == [] && st.panel == [] && st.input == [] && st.image.None?
    ensures !st.busy && st.sessionId.None? && st.title == NewChatTitle
  {
    ChatState([], "", None, false, [], None, NewChatTitle)
  }

  // ---------------------------------------------------------------------------------------------
  // Title derivation

  /** A message that can name the chat: a user message with non-blank content. */
  predicate Names(m: Message) {
    m.role == User && !IsBlank(m.content)
  }

  /** Cut a title to its first 50 characters plus an ellipsis when it is longer than 50. */
  function Clip(s: String): (r: String)
    ensures |r| <= TitleLimit + |Ellipsis|
    ensures |s| <= TitleLimit ==> r == s
    ensures |s| > TitleLimit ==> r == s[..TitleLimit] + Ellipsis
  {
    if |s| > TitleLimit then s[..TitleLimit] + Ellipsis else s
  }

  /** generateChatTitle: "New Chat" when no message names the chat; otherwise the first naming
      message's trimmed content, clipped. The result is at most 53 characters long. */
  function ChatTitle(ms: seq<Message>): (t: String)
    ensures |t| <= TitleLimit + |Ellipsis|
    ensures (forall k :: 0 <= k < |ms| ==> !Names(ms[k])) ==> t == NewChatTitle
    ensures forall k :: 0 <= k < |ms| && Names(ms[k]) && (forall j :: 0 <= j < k ==> !Names(ms[j])) ==>
              t == Clip(Trim(ms[k].content))
    decreases |ms|
  {
    if |ms| == 0 then NewChatTitle
    else if Names(ms[0]) then Clip(Trim(ms[0].content))
    else
      var t := ChatTitle(ms[1..]);
      assert forall k :: 1 <= k < |ms| ==> ms[k] == ms[1..][k - 1];
      t
  }

  /** A derived title, when some message names the chat, is non-empty and starts with a
      non-space character. */
  lemma {:induction false} DerivedTitleShape(ms: seq<Message>, k: nat)
    requires k < |ms| && Names(ms[k])
    ensures ChatTitle(ms) != [] && !IsSpace(ChatTitle(ms)[0])
    decreases |ms|
  {
    if !Names(ms[0]) {
      assert k > 0 && ms[1..][k - 1] == ms[k];
      DerivedTitleShape(ms[1..], k - 1);
    }
  }

  // ---------------------------------------------------------------------------------------------
  // Submit

  /** A history entry sent to the chat API: role and content only. */
  datatype Turn = Turn(role: Role, content: String)

  /** The request the controller issues: the raw input, the image if one was selected (the image
      endpoint is used exactly then), and the prior conversation. */
  datatype ChatRequest = ChatRequest(text: String, image: Option<Image>, history: seq<Turn>)

  /** `messages.map(m => ({role, content}))`. */
  function History(ms: seq<Message>): (h: seq<Turn>)
    ensures |h| == |ms|
    ensures forall i :: 0 <= i < |ms| ==> h[i] == Turn(ms[i].role, ms[i].content)
  {
    seq(|ms|, i requires 0 <= i < |ms| => Turn(ms[i].role, ms[i].content))
  }

  /** The submit guard: something to send (non-blank text or an image) and nothing in flight. */
  predicate CanSubmit(st: ChatState) {
    (!IsBlank(st.input) || st.image.Some?) && !st.busy
  }

  /** The synchronous part of handleSubmit: its new state and the request it issues, if any. */
  datatype Submission = Submission(state: ChatState, request: Option<ChatRequest>)

  /** handleSubmit up to the request: a rejected submit changes nothing and sends nothing; an
      accepted one appends exactly one user message carrying the untrimmed input, marks the
      controller busy, clears the input and the image, and sends the history of the messages
      before the new one. */
  function Submit(st: ChatState, id: int, now: String): (s: Submission)
    ensures !CanSubmit(st) ==> s.state == st && s.request.None?
    ensures CanSubmit(st) ==>
              && s.state.messages == st.messages + [Message(id, User, st.input, now, st.image.Some?, false, None)]
              && s.state.busy && s.state.input == [] && s.state.image.None?
              && s.state.panel == st.panel && s.state.sessionId == st.sessionId && s.state.title == st.title
              && s.request == Some(ChatRequest(st.input, st.image, History(st.messages)))
  {
    if !CanSubmit(st) then Submission(st, None)
    else
      var user := Message(id, User, st.input, now, st.image.Some?, false, None);
      Submission(
        st.(messages := st.messages + [user], busy := true, input := "", image := None),
        Some(ChatRequest(st.input, st.image, History(st.messages))))
  }

  /** Single flight: while a request is in flight a second submit appends nothing and sends
      nothing, and the request sent excludes the message just appended. */
  lemma SubmitSingleFlight(st: ChatState, id1: int, id2: int, now1: String, now2: String)
    requires CanSubmit(st)
    ensures var s1 := Submit(st, id1, now1);
      && Submit(s1.state, id2, now2) == Submission(s1.state, None)
      && s1.request.value.history == History(s1.state.messages[..|s1.state.messages| - 1])
  {
    var s1 := Submit(st, id1, now1);
    assert s1.state.messages[..|s1.state.messages| - 1] == st.messages;
  }

  // ---------------------------------------------------------------------------------------------
  // Completion

  /** The chat API's answer. `text` is absent when the body lacks a `response` field. */
  datatype ChatReply = ChatReply(text: Option<String>, timestamp: String, recommendations: Option<seq<Recommendation>>)

  /** The body of an HTTP error answer: its `message` and `error` fields, when present. */
  datatype ErrorBody = ErrorBody(message: Option<String>, error: Option<String>)

  /** Why a request failed: an HTTP error answer, a request that got no answer, or an exception
      with neither (such as a reply whose `response` field is missing). */
  datatype Failure = HttpError(status: int, body: Option<ErrorBody>) | NoResponse | Crashed

  datatype Outcome = Replied(reply: ChatReply) | Failed(failure: Failure)

  const RateLimitText: String := "API rate limit exceeded. Please wait a moment and try again."
  const ServerErrorPrefix: String := "Server error: "
  const ConnectivityText: String :=
    "Unable to connect to the server. Please check if the backend is running on port 5000."
  const DefaultErrorText: String := "Sorry, I encountered an error. Please try again."

  /** A JavaScript string field that is present and non-empty. */
  predicate Truthy(o: Option<String>) {
    o.Some? && o.value != []
  }

  function BodyMessage(body: Option<ErrorBody>): Option<String> {
    if body.Some? then body.value.message else None
  }

  function BodyError(body: Option<ErrorBody>): Option<String> {
    if body.Some? then body.value.error else None
  }

  /** The user-facing text for a failed request. Rate limiting wins over any body; a server error
      with a message reports it; otherwise a body `error` is shown verbatim; no answer at all gives
      the connectivity text; anything else the default. The text is never empty. */
  function Classify(f: Failure): (text: String)
    ensures f.HttpError? && f.status == 429 ==> text == RateLimitText
    ensures f.HttpError? && f.status == 500 && Truthy(BodyMessage(f.body)) ==>
              text == ServerErrorPrefix + BodyMessage(f.body).value
    ensures f.HttpError? && f.status != 429 && !(f.status == 500 && Truthy(BodyMessage(f.body))) ==>
              text == if Truthy(BodyError(f.body)) then BodyError(f.body).value else DefaultErrorText
    ensures f.NoResponse? ==> text == ConnectivityText
    ensures f.Crashed? ==> text == DefaultErrorText
    ensures text != []
  {
    match f
    case HttpError(status, body) =>
      if status == 429 then RateLimitText
      else if status == 500 && Truthy(BodyMessage(body)) then ServerErrorPrefix + BodyMessage(body).value
      else if Truthy(BodyError(body)) then BodyError(body).value
      else DefaultErrorText
    case NoResponse => ConnectivityText
    case Crashed => DefaultErrorText
  }

  /** The panel content after a reply: the API's recommendations (when present) followed by the
      heuristic's. There is no overall cap. */
  function Merge(adapter: Option<seq<Recommendation>>, heuristic: seq<Recommendation>): seq<Recommendation> {
    adapter.GetOr([]) + heuristic
  }

  /** The failure an outcome amounts to once the reply has been processed: a reply without text
      makes the heuristic throw inside the `try`, which lands in the generic branch. */
  function FailureOf(o: Outcome): Option<Failure> {
    match o
    case Failed(f) => Some(f)
    case Replied(reply) => if reply.text.None? then Some(Crashed) else None
  }

  /** handleSubmit after the request settles, applied to the current state with `input` the text
      that was sent. Exactly one assistant message is appended and the controller is idle again.
      On a reply, the message and the panel carry the merged list: the API's list untruncated,
      then at most three heuristic records. On a failure the message is flagged as an error,
      carries the classified text, and the panel is kept. */
  function Complete(st: ChatState, input: String, o: Outcome, id: int, now: String, stamp: String): (r: ChatState)
    ensures !r.busy
    ensures r.input == st.input && r.image == st.image && r.sessionId == st.sessionId && r.title == st.title
    ensures |r.messages| == |st.messages| + 1 && r.messages[..|st.messages|] == st.messages
    ensures var m := r.messages[|st.messages|];
      && m.role == Assistant && m.id == id && !m.hasImage
      && (FailureOf(o).None? ==>
            var adapter := o.reply.recommendations.GetOr([]);
            && m.content == o.reply.text.value && m.timestamp == o.reply.timestamp && !m.isError
            && m.recommendations == Some(r.panel)
            && |adapter| <= |r.panel| <= |adapter| + MaxSuggestions
            && r.panel[..|adapter|] == adapter
            && r.panel[|adapter|..] == Suggest(input, o.reply.text.value, stamp))
      && (FailureOf(o).Some? ==>
            && m.content == Classify(FailureOf(o).value) && m.timestamp == now && m.isError
            && m.recommendations.None? && r.panel == st.panel)
  {
    match FailureOf(o)
    case None =>
      var text := o.reply.text.value;
      var recs := Merge(o.reply.recommendations, Suggest(input, text, stamp));
      var ai := Message(id, Assistant, text, o.reply.timestamp, false, false, Some(recs));
      st.(messages := st.messages + [ai], panel := recs, busy := false)
    case Some(f) =>
      var err := Message(id, Assistant, Classify(f), now, false, true, None);
      st.(messages := st.messages + [err], busy := false)
  }

  /** An accepted exchange with nothing in between appends the user message and then exactly
      one assistant message, and leaves the controller idle with an empty input. */
  lemma ExchangeAppendsTwo(st: ChatState, o: Outcome, id: int, aiId: int, now: String, later: String, stamp: String)
    requires CanSubmit(st)
    ensures var r := Complete(Submit(st, id, now).state, st.input, o, aiId, later, stamp);
      && |r.messages| == |st.messages| + 2
      && r.messages[..|st.messages|] == st.messages
      && r.messages[|st.messages|].role == User && r.messages[|st.messages|].content == st.input
      && r.messages[|st.messages| + 1].role == Assistant
      && !r.busy && r.input == []
  {
    var u := Message(id, User, st.input, now, st.image.Some?, false, None);
    var s := Submit(st, id, now).state;
    assert s.messages == st.messages + [u];
    var r := Complete(s, st.input, o, aiId, later, stamp);
    var prefix := r.messages[..|s.messages|];
    assert prefix == s.messages;
    assert r.messages[|st.messages|] == prefix[|st.messages|] == u;
    assert r.messages[..|st.messages|] == prefix[..|st.messages|] == st.messages;
  }

  // ---------------------------------------------------------------------------------------------
  // Autosave

  /** What a save writes to the session store. */
  datatype SaveRequest =
    | NoSave
    | UpdateRow(sessionId: String, title: String, messages: seq<Message>)
    | CreateRow(userId: String, title: String, messages: seq<Message>)

  /** The autosave trigger: a signed-in user and a non-empty conversation. */
  predicate AutosaveArmed(user: Option<Auth.User>, st: ChatState) {
    user.Some? && |st.messages| > 0
  }

  /** `currentSessionId` is truthy. */
  predicate HasSessionId(st: ChatState) {
    st.sessionId.Some? && st.sessionId.value != []
  }

  /** The title a save writes: the current one, unless it is exactly "New Chat". */
  function SaveTitle(st: ChatState): String {
    if st.title == NewChatTitle then ChatTitle(st.messages) else st.title
  }

  /** saveCurrentSession's decision: skip without a user or messages; update the known session;
      otherwise create one for the user. Both writes carry the whole message list. */
  function PlanSave(user: Option<Auth.User>, st: ChatState): (req: SaveRequest)
    ensures req.NoSave? <==> !AutosaveArmed(user, st)
    ensures req.UpdateRow? <==> AutosaveArmed(user, st) && HasSessionId(st)
    ensures req.UpdateRow? ==> req.sessionId == st.sessionId.value
    ensures req.CreateRow? ==> req.userId == user.value.id
    ensures !req.NoSave? ==> req.messages == st.messages
    ensures !req.NoSave? && st.title != NewChatTitle ==> req.title == st.title
    ensures !req.NoSave? && st.title == NewChatTitle ==> req.title == ChatTitle(st.messages)
  {
    if !AutosaveArmed(user, st) then NoSave
    else if HasSessionId(st) then UpdateRow(st.sessionId.value, SaveTitle(st), st.messages)
    else CreateRow(user.value.id, SaveTitle(st), st.messages)
  }

  /** The store's answer to a create: the new row's id (when a row came back) and whether an
      error was returned, or an exception. */
  datatype CreateResult = CreateReturned(rowId: Option<String>, failed: bool) | CreateThrew

  predicate Created(result: CreateResult) {
    result.CreateReturned? && result.rowId.Some? && !result.failed
  }

  /** The end of saveCurrentSession after a create, on the current state: a create that returned
      a row and no error adopts the new id and the written title; every other ending, errors
      included, leaves the state alone. An update's answer is not inspected, so an update has no
      after-step. */
  function AfterCreate(st: ChatState, title: String, result: CreateResult): (r: ChatState)
    ensures Created(result) ==> r == st.(sessionId := Some(result.rowId.value), title := title)
    ensures !Created(result) ==> r == st
  {
    if Created(result) then st.(sessionId := Some(result.rowId.value), title := title) else st
  }

  /** After a successful create with a usable id, the next save of the same conversation updates
      that row with the same title instead of creating a duplicate. */
  lemma SaveAdoptsIdentity(user: Option<Auth.User>, st: ChatState, result: CreateResult)
    requires PlanSave(user, st).CreateRow? && Created(result) && result.rowId.value != []
    ensures var req := PlanSave(user, st);
      PlanSave(user, AfterCreate(st, req.title, result)) == UpdateRow(result.rowId.value, req.title, st.messages)
  {
  }

  // ---------------------------------------------------------------------------------------------
  // New, load, rename

  /** startNewChat: back to the mount state, except that the typed input and the busy flag are
      kept. */
  function StartNewChat(st: ChatState): (r: ChatState)
    ensures r == InitialChat().(input := st.input, busy := st.busy)
  {
    st.(messages := [], panel := [], sessionId := None, title := NewChatTitle, image := None)
  }

  /** A new chat has nothing to save, and starting one twice is the same as once. */
  lemma NewChatDisarmsAutosave(user: Option<Auth.User>, st: ChatState)
    ensures PlanSave(user, StartNewChat(st)) == NoSave
    ensures StartNewChat(StartNewChat(st)) == StartNewChat(st)
  {
  }

  /** A stored session as the sidebar hands it over. */
  datatype SessionRecord = SessionRecord(id: String, title: String, messages: Option<seq<Message>>)

  /** An assistant message with a `recommendations` field; an empty list counts. */
  predicate Carries(m: Message) {
    m.role == Assistant && m.recommendations.Some?
  }

  /** `find(m => m.role === 'assistant' && m.recommendations)`: the first carrier. */
  function FindCarrier(ms: seq<Message>): (r: Option<Message>)
    ensures r.None? <==> forall k :: 0 <= k < |ms| ==> !Carries(ms[k])
    ensures r.Some? ==> exists k :: 0 <= k < |ms| && ms[k] == r.value && Carries(ms[k])
                          && forall j :: 0 <= j < k ==> !Carries(ms[j])
    decreases |ms|
  {
    if |ms| == 0 then None
    else if Carries(ms[0]) then Some(ms[0])
    else
      var r := FindCarrier(ms[1..]);
      assert forall k :: 1 <= k < |ms| ==> ms[k] == ms[1..][k - 1];
      assert r.Some? ==> exists k :: 0 <= k < |ms| && ms[k] == r.value && Carries(ms[k])
                          && forall j :: 0 <= j < k ==> !Carries(ms[j]) by {
        if r.Some? {
          var k :| 0 <= k < |ms[1..]| && ms[1..][k] == r.value && Carries(ms[1..][k])
                    && forall j :: 0 <= j < k ==> !Carries(ms[1..][j]);
          assert ms[k + 1] == r.value;
        }
      }
      r
  }

  /** No message carries recommendations. */
  predicate NoCarrier(ms: seq<Message>) {
    forall k :: 0 <= k < |ms| ==> !Carries(ms[k])
  }

  /** `ms[k]` is the last message that carries recommendations. */
  predicate IsLastCarrier(ms: seq<Message>, k: int) {
    0 <= k < |ms| && Carries(ms[k]) && forall j :: k < j < |ms| ==> !Carries(ms[j])
  }

  /** Scanning the reversed list finds the last carrier of the original list. */
  lemma FindCarrierReversed(ms: seq<Message>, k: int)
    requires IsLastCarrier(ms, k)
    ensures FindCarrier(Reverse(ms)) == Some(ms[k])
  {
    var rev := Reverse(ms);
    var ik := |ms| - 1 - k;
    assert rev[ik] == ms[k];
    forall j | 0 <= j < ik ensures !Carries(rev[j]) {
      assert rev[j] == ms[|ms| - 1 - j];
    }
    var r := FindCarrier(rev);
    assert r.Some?;
    var i :| 0 <= i < |rev| && rev[i] == r.value && Carries(rev[i]) && forall j :: 0 <= j < i ==> !Carries(rev[j]);
    assert i == ik;
  }

  /** Scanning the reversed list finds nothing when nothing carries recommendations. */
  lemma FindCarrierReversedNone(ms: seq<Message>)
    requires NoCarrier(ms)
    ensures FindCarrier(Reverse(ms)).None?
  {
    var rev := Reverse(ms);
    forall i | 0 <= i < |rev| ensures !Carries(rev[i]) {
      assert rev[i] == ms[|ms| - 1 - i];
    }
  }

  /** The panel a loaded session shows: the recommendations of the last carrier, or nothing;
      computed as the source does, by scanning the reversed list from its start. */
  function LastRecommendations(ms: seq<Message>): (r: seq<Recommendation>)
    ensures NoCarrier(ms) ==> r == []
    ensures forall k :: IsLastCarrier(ms, k) ==> r == ms[k].recommendations.value
  {
    if NoCarrier(ms) then
      FindCarrierReversedNone(ms);
      []
    else
      forall k | IsLastCarrier(ms, k) ensures FindCarrier(Reverse(ms)) == Some(ms[k]) {
        FindCarrierReversed(ms, k);
      }
      match FindCarrier(Reverse(ms))
      case None => []
      case Some(m) => m.recommendations.value
  }

  /** loadChatSession as intended: install the stored messages (none when absent), id and
      title, and show the recommendations of the last assistant message that carries any. Input,
      image and busy flag are kept. */
  function LoadChatSession(st: ChatState, rec: SessionRecord): (r: ChatState)
    ensures r.messages == rec.messages.GetOr([]) && r.sessionId == Some(rec.id) && r.title == rec.title
    ensures r.panel == LastRecommendations(rec.messages.GetOr([]))
    ensures r.input == st.input && r.image == st.image && r.busy == st.busy
  {
    var ms := rec.messages.GetOr([]);
    st.(messages := ms, sessionId := Some(rec.id), title := rec.title, panel := LastRecommendations(ms))
  }

  /** What the as-written load leaves behind: the controller's state and the caller's record. */
  datatype Loaded = Loaded(state: ChatState, record: SessionRecord)

  /** loadChatSession as written: `.reverse()` reverses, in place, the very array just passed to
      `setMessages`. That array is the caller's record (the sidebar's listed row), so the
      controller and the record both end up holding the transcript in the opposite order; the
      panel is still taken from the last carrier of the order loaded. A record without messages
      gets a fresh empty array and is left alone. */
  function LoadChatSessionAsWritten(st: ChatState, rec: SessionRecord): (r: Loaded)
    ensures r.state == LoadChatSession(st, rec).(messages := Reverse(rec.messages.GetOr([])))
    ensures r.record.id == rec.id && r.record.title == rec.title
    ensures r.record.messages.Some? == rec.messages.Some?
    ensures rec.messages.Some? ==> r.record.messages.value == r.state.messages
  {
    var ms := rec.messages.GetOr([]);
    var rev := Reverse(ms);
    var state := st.(messages := rev, sessionId := Some(rec.id), title := rec.title,
                     panel := match FindCarrier(rev) case Some(m) => m.recommendations.value case None => []);
    Loaded(state, if rec.messages.Some? then rec.(messages := Some(rev)) else rec)
  }

  /** A two-message session comes back reversed from the as-written load, while the intended
      load keeps it in order. */
  lemma LoadAsWrittenReverses(st: ChatState, a: Message, b: Message)
    requires a != b
    ensures var rec := SessionRecord("s", "t", Some([a, b]));
      && LoadChatSessionAsWritten(st, rec).state.messages == [b, a]
      && LoadChatSession(st, rec).messages == [a, b]
      && LoadChatSessionAsWritten(st, rec).state.messages != LoadChatSession(st, rec).messages
  {
    var rec := SessionRecord("s", "t", Some([a, b]));
    assert Reverse([a, b]) == [b, a];
  }

  /** `ms[k]` is the first message that carries recommendations. */
  predicate IsFirstCarrier(ms: seq<Message>, k: int) {
    0 <= k < |ms| && Carries(ms[k]) && forall j :: 0 <= j < k ==> !Carries(ms[j])
  }

  /** Loading the same listed row a second time, as written, flips the row back: the transcript
      shows in stored order, the row is restored, and the panel shows the recommendations of the
      FIRST carrier instead of the last. */
  lemma LoadTwiceRestores(st: ChatState, rec: SessionRecord)
    ensures var first := LoadChatSessionAsWritten(st, rec);
      var second := LoadChatSessionAsWritten(first.state, first.record);
      && second.record == rec
      && second.state.messages == rec.messages.GetOr([])
      && (NoCarrier(rec.messages.GetOr([])) ==> second.state.panel == [])
      && (forall k :: IsFirstCarrier(rec.messages.GetOr([]), k) ==>
            second.state.panel == rec.messages.GetOr([])[k].recommendations.value)
  {
    var ms := rec.messages.GetOr([]);
    var rev := Reverse(ms);
    ReverseReverse(ms);
    var first := LoadChatSessionAsWritten(st, rec);
    assert first.record.messages.GetOr([]) == rev;
    var second := LoadChatSessionAsWritten(first.state, first.record);
    assert second.state.panel == LastRecommendations(rev);
    if NoCarrier(ms) {
      NoCarrierReversed(ms);
    }
    forall k | IsFirstCarrier(ms, k) ensures second.state.panel == ms[k].recommendations.value {
      FirstCarrierReversed(ms, k);
    }
  }

  /** Reversing a list without carriers gives a list without carriers. */
  lemma NoCarrierReversed(ms: seq<Message>)
    requires NoCarrier(ms)
    ensures NoCarrier(Reverse(ms))
  {
    var rev := Reverse(ms);
    forall i | 0 <= i < |rev| ensures !Carries(rev[i]) {
      assert rev[i] == ms[|ms| - 1 - i];
    }
  }

  /** The first carrier of a list is the last carrier of its reversal. */
  lemma FirstCarrierReversed(ms: seq<Message>, k: int)
    requires IsFirstCarrier(ms, k)
    ensures IsLastCarrier(Reverse(ms), |ms| - 1 - k) && Reverse(ms)[|ms| - 1 - k] == ms[k]
  {
    var rev := Reverse(ms);
    var i := |ms| - 1 - k;
    forall j | i < j < |rev| ensures !Carries(rev[j]) {
      assert rev[j] == ms[|ms| - 1 - j];
    }
  }

  /** After a first as-written load, the armed autosave writes the transcript back to the same
      row in the reversed order. */
  lemma ReversedLoadIsSaved(user: Option<Auth.User>, st: ChatState, rec: SessionRecord)
    requires user.Some? && rec.messages.GetOr([]) != [] && rec.id != []
    ensures var req := PlanSave(user, LoadChatSessionAsWritten(st, rec).state);
      req.UpdateRow? && req.sessionId == rec.id && req.messages == Reverse(rec.messages.GetOr([]))
  {
  }

  /** The store's answer to an update: returned (with or without an error) or an exception. */
  datatype UpdateResult = UpdateReturned(failed: bool) | UpdateThrew

  /** The effect of renameChatSession: the new state, the write it issued, and whether the error
      is rethrown to the caller. */
  datatype Renaming = Renaming(state: ChatState, write: SaveRequest, rethrown: bool)

  /** renameChatSession: writes the new title together with the ACTIVE chat's messages to the
      renamed id; only an exception counts as failure, which is rethrown and leaves the state
      alone; otherwise the active title changes exactly when the renamed id is the active one. */
  function RenameChatSession(st: ChatState, sessionId: String, newTitle: String, result: UpdateResult): (r: Renaming)
    ensures r.write == UpdateRow(sessionId, newTitle, st.messages)
    ensures r.rethrown <==> result.UpdateThrew?
    ensures !result.UpdateThrew? && st.sessionId == Some(sessionId) ==> r.state == st.(title := newTitle)
    ensures result.UpdateThrew? || st.sessionId != Some(sessionId) ==> r.state == st
  {
    var write := UpdateRow(sessionId, newTitle, st.messages);
    match result
    case UpdateThrew => Renaming(st, write, true)
    case UpdateReturned(_) =>
      Renaming(if st.sessionId == Some(sessionId) then st.(title := newTitle) else st, write, false)
  }

  /** The store wrapper reports errors by return value, which the rename does not inspect: a
      returned error renames exactly like a success. */
  lemma RenameIgnoresReturnedError(st: ChatState, sessionId: String, newTitle: String)
    ensures RenameChatSession(st, sessionId, newTitle, UpdateReturned(true))
         == RenameChatSession(st, sessionId, newTitle, UpdateReturned(false))
  {
  }
}
