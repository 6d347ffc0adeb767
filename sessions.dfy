/**
 * The hard-coded session list of the sidebar and the header title lookup
 * `chatSessions.find(s => s.id === currentSessionId)?.title || 'New Chat'`.
 */
module Sessions {
  import opened Wrappers
  import opened RelativeTime

  datatype ChatSession = ChatSession(id: string, title: string, lastMessage: int, preview: string, messageCount: nat)

  const CurrentSessionId: string := "current"
  const DefaultTitle: string := "New Chat"

  /** The five sessions, rebuilt on every render with `Date.now()` read as `now`. */
  function ChatSessions(now: int): seq<ChatSession> {
    [ ChatSession(CurrentSessionId, "New Chat", now, "How can I help you today?", 1),
      ChatSession("1", "Contract Review Analysis", now - 3600000, "What should I look for in an employment contract?", 8),
      ChatSession("2", "Document Legal Summary", now - 86400000, "Please analyze this lease agreement", 12),
      ChatSession("3", "Privacy Law Research", now - 172800000, "Latest updates on data privacy laws", 6),
      ChatSession("4", "Intellectual Property Questions", now - 259200000, "Patent application process", 15) ]
  }

  /** Index `k` holds the first session whose id is `id`. */
  predicate FirstWithId(sessions: seq<ChatSession>, id: string, k: int) {
    0 <= k < |sessions| && sessions[k].id == id && forall j :: 0 <= j < k ==> sessions[j].id != id
  }

  /** `sessions.find(s => s.id === id)`. */
  function Find(sessions: seq<ChatSession>, id: string): (r: Option<ChatSession>)
    ensures r.Some? ==> r.value in sessions && r.value.id == id
    ensures r.None? <==> forall k :: 0 <= k < |sessions| ==> sessions[k].id != id
    decreases |sessions|
  {
    if sessions == [] then None
    else if sessions[0].id == id then Some(sessions[0])
    else Find(sessions[1..], id)
  }

  /** `find` returns the first match, not just any. */
  lemma {:induction false} FindReturnsFirst(sessions: seq<ChatSession>, id: string, k: int)
    requires FirstWithId(sessions, id, k)
    ensures Find(sessions, id) == Some(sessions[k])
    decreases |sessions|
  {
    if k > 0 {
      assert sessions[1..][k - 1] == sessions[k];
      forall j | 0 <= j < k - 1 ensures sessions[1..][j].id != id {
        assert sessions[1..][j] == sessions[j + 1];
      }
      FindReturnsFirst(sessions[1..], id, k - 1);
    }
  }

  /** The header title: the found session's title, with `||` also replacing an empty title. */
  function HeaderTitle(sessions: seq<ChatSession>, id: string): string {
    match Find(sessions, id)
    case Some(s) => if s.title != "" then s.title else DefaultTitle
    case None => DefaultTitle
  }

  /** The header shows the first matching session's non-empty title, and "New Chat" otherwise. */
  lemma HeaderTitleSpec(sessions: seq<ChatSession>, id: string)
    ensures forall k :: FirstWithId(sessions, id, k) && sessions[k].title != "" ==> HeaderTitle(sessions, id) == sessions[k].title
    ensures forall k :: FirstWithId(sessions, id, k) && sessions[k].title == "" ==> HeaderTitle(sessions, id) == DefaultTitle
    ensures (forall k :: 0 <= k < |sessions| ==> sessions[k].id != id) ==> HeaderTitle(sessions, id) == DefaultTitle
  {
    forall k | FirstWithId(sessions, id, k) ensures Find(sessions, id) == Some(sessions[k]) {
      FindReturnsFirst(sessions, id, k);
    }
  }

  /**
   * On the fixed list every session id selects its own title, and an id that
   * is not in the list shows "New Chat".
   */
  lemma FixedHeaderTitles(now: int, id: string)
    ensures forall k :: 0 <= k < |ChatSessions(now)| ==>
      HeaderTitle(ChatSessions(now), ChatSessions(now)[k].id) == ChatSessions(now)[k].title
    ensures id !in {"current", "1", "2", "3", "4"} ==> HeaderTitle(ChatSessions(now), id) == DefaultTitle
  {
    var ss := ChatSessions(now);
    forall k | 0 <= k < |ss| ensures HeaderTitle(ss, ss[k].id) == ss[k].title {
      assert FirstWithId(ss, ss[k].id, k);
      HeaderTitleSpec(ss, ss[k].id);
    }
    HeaderTitleSpec(ss, id);
  }

  /**
   * The sidebar's ages: read `late` milliseconds after the list was built (less
   * than an hour), the sessions show "Just now", "1h ago", "1d ago", "2d ago"
   * and "3d ago".
   */
  lemma FixedSessionLabels(now: int, late: int)
    requires 0 <= late < MsPerHour
    ensures var ss := ChatSessions(now);
      FormatRelativeTime(now + late, ss[0].lastMessage) == JustNow &&
      FormatRelativeTime(now + late, ss[1].lastMessage) == HoursAgo(1) &&
      FormatRelativeTime(now + late, ss[2].lastMessage) == DaysAgo(1) &&
      FormatRelativeTime(now + late, ss[3].lastMessage) == DaysAgo(2) &&
      FormatRelativeTime(now + late, ss[4].lastMessage) == DaysAgo(3)
  {
    var ss := ChatSessions(now);
    FormatRelativeTimeBuckets(now + late, ss[0].lastMessage);
    FormatRelativeTimeBuckets(now + late, ss[1].lastMessage);
    FormatRelativeTimeBuckets(now + late, ss[2].lastMessage);
    FormatRelativeTimeBuckets(now + late, ss[3].lastMessage);
    FormatRelativeTimeBuckets(now + late, ss[4].lastMessage);
  }
}
