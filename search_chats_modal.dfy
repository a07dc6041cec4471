/** The chat search dialog (web/src/components/SearchChatsModal.tsx): a
    case-insensitive filter over titles and message texts, the grouping of
    the matching chats into five age buckets, and the query that selecting
    a chat or starting a new one clears. The start of the local day is a
    parameter, in the same milliseconds as `Chat.createdAt`. */
module SearchChatsModal {
  import opened Seqs
  import opened Text
  import opened ChatContext

  const DayMs: int := 24 * 60 * 60 * 1000

  datatype Bucket = Today | Yesterday | Previous7Days | Previous30Days | Older

  const BucketCount: nat := 5

  /** Position of a bucket in the dialog, newest first. */
  function Rank(b: Bucket): (k: nat)
    ensures k < BucketCount
  {
    match b
    case Today => 0
    case Yesterday => 1
    case Previous7Days => 2
    case Previous30Days => 3
    case Older => 4
  }

  function Label(b: Bucket): string
  {
    match b
    case Today => "Today"
    case Yesterday => "Yesterday"
    case Previous7Days => "Previous 7 Days"
    case Previous30Days => "Previous 30 Days"
    case Older => "Older"
  }

  /** The bucket of a chat created at `createdAt`: every bound is inclusive,
      and whatever is before the 30-day bound is `Older`. */
  function BucketOf(createdAt: int, today: int): Bucket
  {
    if createdAt >= today then Today
    else if createdAt >= today - DayMs then Yesterday
    else if createdAt >= today - 7 * DayMs then Previous7Days
    else if createdAt >= today - 30 * DayMs then Previous30Days
    else Older
  }

  /** Each bucket is the interval between two bounds, the lower one included. */
  lemma BucketOfBounds(createdAt: int, today: int)
    ensures var b := BucketOf(createdAt, today);
      && (b == Today <==> today <= createdAt)
      && (b == Yesterday <==> today - DayMs <= createdAt < today)
      && (b == Previous7Days <==> today - 7 * DayMs <= createdAt < today - DayMs)
      && (b == Previous30Days <==> today - 30 * DayMs <= createdAt < today - 7 * DayMs)
      && (b == Older <==> createdAt < today - 30 * DayMs)
  {
  }

  /** An earlier chat never lands in a newer bucket than a later one. */
  lemma BucketMonotone(t1: int, t2: int, today: int)
    requires t1 <= t2
    ensures Rank(BucketOf(t1, today)) >= Rank(BucketOf(t2, today))
  {
  }

  /** A labelled group of chats; `name` is the source's `label`, a reserved word here. */
  datatype ChatGroup = ChatGroup(name: string, chats: seq<Chat>)

  function InBucketPred(today: int, b: Bucket): Chat -> bool
  {
    (c: Chat) => BucketOf(c.createdAt, today) == b
  }

  /** The chats of bucket `b`, in input order. */
  function InBucket(chats: seq<Chat>, today: int, b: Bucket): seq<Chat>
  {
    Filter(chats, InBucketPred(today, b))
  }

  /** The bucket at position `k`, newest first. */
  function BucketAt(k: nat): (b: Bucket)
    requires k < BucketCount
    ensures Rank(b) == k
  {
    [Today, Yesterday, Previous7Days, Previous30Days, Older][k]
  }

  lemma BucketAtRank(b: Bucket)
    ensures BucketAt(Rank(b)) == b
  {
  }

  /** The position of a group label, or 5 for a string that is no label. */
  function LabelRank(name: string): (k: nat)
    ensures k <= 5
  {
    if name == "Today" then 0
    else if name == "Yesterday" then 1
    else if name == "Previous 7 Days" then 2
    else if name == "Previous 30 Days" then 3
    else if name == "Older" then 4
    else 5
  }

  lemma LabelRankOfLabel(b: Bucket)
    ensures LabelRank(Label(b)) == Rank(b)
  {
  }

  function GroupIfAny(b: Bucket, cs: seq<Chat>): seq<ChatGroup>
  {
    if |cs| > 0 then [ChatGroup(Label(b), cs)] else []
  }

  /** The groups of the first `n` buckets: one per non-empty bucket, in bucket order. */
  function GroupsUpTo(chats: seq<Chat>, today: int, n: nat): seq<ChatGroup>
    requires n <= BucketCount
  {
    if n == 0 then []
    else GroupsUpTo(chats, today, n - 1) + GroupIfAny(BucketAt(n - 1), InBucket(chats, today, BucketAt(n - 1)))
  }

  /** The groups the dialog lists: one per non-empty bucket, newest bucket first. */
  function GroupsSpec(chats: seq<Chat>, today: int): seq<ChatGroup>
  {
    GroupsUpTo(chats, today, BucketCount)
  }

  /** The chats of all groups, in group order. */
  function Flatten(groups: seq<ChatGroup>): seq<Chat>
  {
    if groups == [] then [] else Flatten(groups[..|groups| - 1]) + groups[|groups| - 1].chats
  }

  lemma FlattenSnoc(groups: seq<ChatGroup>, extra: seq<ChatGroup>)
    requires |extra| <= 1
    ensures Flatten(groups + extra) == Flatten(groups) + (if extra == [] then [] else extra[0].chats)
  {
    if extra != [] {
      assert (groups + extra)[..|groups|] == groups;
    } else {
      assert groups + extra == groups;
    }
  }

  /** The groups of the first `n` buckets hold chat `c` as often as the
      input does when `c` belongs to one of those buckets, and never
      otherwise. */
  lemma {:induction false} GroupsUpToCount(chats: seq<Chat>, today: int, n: nat, c: Chat)
    requires n <= BucketCount
    ensures multiset(Flatten(GroupsUpTo(chats, today, n)))[c]
      == (if Rank(BucketOf(c.createdAt, today)) < n then multiset(chats)[c] else 0)
    decreases n, 1
  {
    if n == 0 {
      CountZero(chats, today, c);
    } else {
      CountSucc(chats, today, n, c);
    }
  }

  /** No bucket comes before the first one. */
  lemma CountZero(chats: seq<Chat>, today: int, c: Chat)
    ensures multiset(Flatten(GroupsUpTo(chats, today, 0)))[c]
      == (if Rank(BucketOf(c.createdAt, today)) < 0 then multiset(chats)[c] else 0)
  {
  }

  /** `GroupsUpToCount` for `n > 0`, from its value at `n - 1`. */
  lemma CountSucc(chats: seq<Chat>, today: int, n: nat, c: Chat)
    requires 0 < n <= BucketCount
    ensures multiset(Flatten(GroupsUpTo(chats, today, n)))[c]
      == (if Rank(BucketOf(c.createdAt, today)) < n then multiset(chats)[c] else 0)
    decreases n, 0
  {
    GroupsUpToCount(chats, today, n - 1, c);
    CountNext(chats, today, n, c);
  }

  /** One step of `GroupsUpToCount`: adding bucket `n - 1` adds the copies of
      `c` exactly when `c` belongs to that bucket. */
  lemma CountNext(chats: seq<Chat>, today: int, n: nat, c: Chat)
    requires 0 < n <= BucketCount
    requires multiset(Flatten(GroupsUpTo(chats, today, n - 1)))[c]
      == (if Rank(BucketOf(c.createdAt, today)) < n - 1 then multiset(chats)[c] else 0)
    ensures multiset(Flatten(GroupsUpTo(chats, today, n)))[c]
      == (if Rank(BucketOf(c.createdAt, today)) < n then multiset(chats)[c] else 0)
  {
    var b := BucketAt(n - 1);
    var prev, cs := Flatten(GroupsUpTo(chats, today, n - 1)), InBucket(chats, today, b);
    var own := BucketOf(c.createdAt, today);
    FlattenGroupsUpTo(chats, today, n);
    assert multiset(prev + cs)[c] == multiset(prev)[c] + multiset(cs)[c];
    InBucketCount(chats, today, b, c);
    BucketAtRank(own);
    CountStep(multiset(prev)[c], multiset(cs)[c], multiset(chats)[c], Rank(own), n, own == b);
  }

  /** The arithmetic of one step of `GroupsUpToCount`. */
  lemma CountStep(before: nat, added: nat, total: nat, k: nat, n: nat, inBucket: bool)
    requires n > 0
    requires before == (if k < n - 1 then total else 0)
    requires added == (if inBucket then total else 0)
    requires inBucket <==> k == n - 1
    ensures before + added == (if k < n then total else 0)
  {
  }

  /** The chats of the first `n` buckets are those of the first `n - 1`
      followed by those of bucket `n - 1`. */
  lemma FlattenGroupsUpTo(chats: seq<Chat>, today: int, n: nat)
    requires 0 < n <= BucketCount
    ensures Flatten(GroupsUpTo(chats, today, n))
      == Flatten(GroupsUpTo(chats, today, n - 1)) + InBucket(chats, today, BucketAt(n - 1))
  {
    var b := BucketAt(n - 1);
    FlattenSnoc(GroupsUpTo(chats, today, n - 1), GroupIfAny(b, InBucket(chats, today, b)));
  }

  /** Bucket `b` holds chat `c` as often as the input when `c` belongs to it. */
  lemma InBucketCount(chats: seq<Chat>, today: int, b: Bucket, c: Chat)
    ensures multiset(InBucket(chats, today, b))[c] == if BucketOf(c.createdAt, today) == b then multiset(chats)[c] else 0
  {
    FilterMultisetAt(chats, InBucketPred(today, b), c);
  }

  /** Every chat lands in exactly one group: the groups, concatenated, are a
      permutation of the input. */
  lemma GroupsArePartition(chats: seq<Chat>, today: int)
    ensures multiset(Flatten(GroupsSpec(chats, today))) == multiset(chats)
  {
    var m := multiset(Flatten(GroupsSpec(chats, today)));
    forall c: Chat
      ensures m[c] == multiset(chats)[c]
    {
      GroupsUpToCount(chats, today, BucketCount, c);
    }
  }

  /** The groups `GroupsUpTo` builds: at most `n` of them, none empty, each
      holding exactly the chats of one bucket in input order, labelled by that
      bucket, and in strictly increasing bucket order. */
  ghost predicate WellFormedGroups(groups: seq<ChatGroup>, chats: seq<Chat>, today: int, n: nat)
  {
    && |groups| <= n
    && (forall i :: 0 <= i < |groups| ==> |groups[i].chats| > 0)
    && (forall i :: 0 <= i < |groups| ==>
          exists b :: Rank(b) < n && groups[i] == ChatGroup(Label(b), InBucket(chats, today, b)))
    && (forall i :: 0 <= i < |groups| ==> LabelRank(groups[i].name) < n)
    && (forall i, j :: 0 <= i < j < |groups| ==> LabelRank(groups[i].name) < LabelRank(groups[j].name))
  }

  lemma {:induction false} GroupsUpToWellFormed(chats: seq<Chat>, today: int, n: nat)
    requires n <= BucketCount
    ensures WellFormedGroups(GroupsUpTo(chats, today, n), chats, today, n)
  {
    if n > 0 {
      GroupsUpToWellFormed(chats, today, n - 1);
      var prev := GroupsUpTo(chats, today, n - 1);
      var b := BucketAt(n - 1);
      var cs := InBucket(chats, today, b);
      var groups := GroupsUpTo(chats, today, n);
      assert groups == prev + GroupIfAny(b, cs);
      LabelRankOfLabel(b);
      forall i | 0 <= i < |groups|
        ensures exists b' :: Rank(b') < n && groups[i] == ChatGroup(Label(b'), InBucket(chats, today, b'))
      {
        if i < |prev| {
          assert groups[i] == prev[i];
        } else {
          assert groups[i] == ChatGroup(Label(b), cs);
        }
      }
    }
  }

  /** No group is empty, there are at most five, each holds exactly the
      input's chats of one bucket in input order, and the labels come in the
      fixed order Today, Yesterday, Previous 7 Days, Previous 30 Days, Older. */
  lemma GroupsShape(chats: seq<Chat>, today: int)
    ensures var groups := GroupsSpec(chats, today);
      && |groups| <= 5
      && (forall i :: 0 <= i < |groups| ==> |groups[i].chats| > 0)
      && (forall i :: 0 <= i < |groups| ==>
            exists b :: groups[i] == ChatGroup(Label(b), InBucket(chats, today, b)))
      && (forall i :: 0 <= i < |groups| ==> IsSubsequence(groups[i].chats, chats))
      && (forall i, j :: 0 <= i < j < |groups| ==> LabelRank(groups[i].name) < LabelRank(groups[j].name))
  {
    GroupsUpToWellFormed(chats, today, BucketCount);
    var groups := GroupsSpec(chats, today);
    forall i | 0 <= i < |groups| ensures IsSubsequence(groups[i].chats, chats) {
      var b :| Rank(b) < BucketCount && groups[i] == ChatGroup(Label(b), InBucket(chats, today, b));
      FilterIsSubsequence(chats, InBucketPred(today, b));
    }
  }

  lemma {:induction false} NoChatsNoGroups(today: int, n: nat)
    requires n <= BucketCount
    ensures GroupsUpTo([], today, n) == []
  {
    if n > 0 {
      NoChatsNoGroups(today, n - 1);
    }
  }

  /** The dialog shows its empty message exactly when no chat is left to group. */
  lemma GroupsEmptyIff(chats: seq<Chat>, today: int)
    ensures GroupsSpec(chats, today) == [] <==> chats == []
  {
    if chats == [] {
      NoChatsNoGroups(today, BucketCount);
    } else {
      GroupsArePartition(chats, today);
      assert multiset(Flatten(GroupsSpec(chats, today)))[chats[0]] > 0;
    }
  }

  /** `groupChatsByDate`: one pass pushing each chat into its bucket, then one
      group per non-empty bucket. */
  method GroupChatsByDate(chats: seq<Chat>, today: int) returns (result: seq<ChatGroup>)
    ensures result == GroupsSpec(chats, today)
  {
    var todayChats, yesterdayChats, previous7, previous30, older := [], [], [], [], [];
    var yesterday := today - DayMs;
    var last7Days := today - 7 * DayMs;
    var last30Days := today - 30 * DayMs;
    var i := 0;
    while i < |chats|
      invariant 0 <= i <= |chats|
      invariant todayChats == InBucket(chats[..i], today, Today)
      invariant yesterdayChats == InBucket(chats[..i], today, Yesterday)
      invariant previous7 == InBucket(chats[..i], today, Previous7Days)
      invariant previous30 == InBucket(chats[..i], today, Previous30Days)
      invariant older == InBucket(chats[..i], today, Older)
    {
      var chat := chats[i];
      InBucketStep(chats, i, today, Today);
      InBucketStep(chats, i, today, Yesterday);
      InBucketStep(chats, i, today, Previous7Days);
      InBucketStep(chats, i, today, Previous30Days);
      InBucketStep(chats, i, today, Older);
      if chat.createdAt >= today {
        todayChats := todayChats + [chat];
      } else if chat.createdAt >= yesterday {
        yesterdayChats := yesterdayChats + [chat];
      } else if chat.createdAt >= last7Days {
        previous7 := previous7 + [chat];
      } else if chat.createdAt >= last30Days {
        previous30 := previous30 + [chat];
      } else {
        older := older + [chat];
      }
      i := i + 1;
    }
    assert chats[..i] == chats;
    result := [];
    if |todayChats| > 0 { result := result + [ChatGroup("Today", todayChats)]; }
    assert result == GroupsUpTo(chats, today, 1);
    if |yesterdayChats| > 0 { result := result + [ChatGroup("Yesterday", yesterdayChats)]; }
    assert result == GroupsUpTo(chats, today, 2);
    if |previous7| > 0 { result := result + [ChatGroup("Previous 7 Days", previous7)]; }
    assert result == GroupsUpTo(chats, today, 3);
    if |previous30| > 0 { result := result + [ChatGroup("Previous 30 Days", previous30)]; }
    assert result == GroupsUpTo(chats, today, 4);
    if |older| > 0 { result := result + [ChatGroup("Older", older)]; }
  }

  /** One turn of the loop of `groupChatsByDate`: the chat at `i` joins
      bucket `b` exactly when it belongs there. */
  lemma InBucketStep(chats: seq<Chat>, i: nat, today: int, b: Bucket)
    requires i < |chats|
    ensures InBucket(chats[..i + 1], today, b)
      == InBucket(chats[..i], today, b) + (if BucketOf(chats[i].createdAt, today) == b then [chats[i]] else [])
  {
    assert chats[..i + 1] == chats[..i] + [chats[i]];
    FilterSnoc(chats[..i], chats[i], InBucketPred(today, b));
  }

  /** A chat matches when its lower-cased title, or the lower-cased text of one
      of its messages, contains the lower-cased query. */
  predicate MatchesQuery(chat: Chat, query: string)
  {
    var q := LowerStr(query);
    Contains(LowerStr(chat.title), q)
    || exists i :: 0 <= i < |chat.messages| && Contains(LowerStr(chat.messages[i].content), q)
  }

  function MatchPred(query: string): Chat -> bool
  {
    (c: Chat) => MatchesQuery(c, query)
  }

  /** `filteredChats`: a blank query shows every chat; otherwise the matching
      chats, in order. The query is lower-cased but not trimmed for matching. */
  function FilteredChats(chats: seq<Chat>, query: string): (r: seq<Chat>)
    ensures AllSpace(query) ==> r == chats
    ensures !AllSpace(query) ==> forall c :: c in r <==> c in chats && MatchesQuery(c, query)
    ensures !AllSpace(query) ==> forall c :: multiset(r)[c] == if MatchesQuery(c, query) then multiset(chats)[c] else 0
    ensures IsSubsequence(r, chats)
  {
    if Trim(query) == "" then
      assert IsSubsequence(chats, chats) by {
        FilterKeepsAll(chats, (c: Chat) => true);
        FilterIsSubsequence(chats, (c: Chat) => true);
      }
      chats
    else
      FilterMembers(chats, MatchPred(query));
      FilterMultiset(chats, MatchPred(query));
      FilterIsSubsequence(chats, MatchPred(query));
      Filter(chats, MatchPred(query))
  }

  /** Leading white space is kept in the query: " a" does not find a chat
      titled "a". */
  lemma QueryIsNotTrimmed()
    ensures FilteredChats([Chat("1", "a", [], 0)], " a") == []
  {
    var q := " a";
    assert !IsSpace(q[1]);
    var c := Chat("1", "a", [], 0);
    assert !Contains(LowerStr(c.title), LowerStr(q));
    assert !MatchesQuery(c, q);
  }

  /** The dialog's own state: the text of its search box. */
  class SearchModal {
    var query: string

    constructor ()
      ensures query == ""
    {
      query := "";
    }

    /** The groups the dialog shows for the current query. */
    function Groups(chats: seq<Chat>, today: int): seq<ChatGroup>
      reads this
    {
      GroupsSpec(FilteredChats(chats, query), today)
    }

    /** The text shown when there are no groups. */
    function EmptyText(): string
      reads this
    {
      if query != "" then "No chats found" else "No chats yet"
    }

    method SetQuery(q: string)
      modifies this
      ensures query == q
    {
      query := q;
    }

    /** `handleChatClick`: passes the id on to `onSelectChat` and clears the query. */
    method HandleChatClick(chatId: string) returns (selected: string)
      modifies this
      ensures selected == chatId
      ensures query == ""
    {
      selected := chatId;
      query := "";
    }

    /** `handleNewChat`: clears the query. */
    method HandleNewChat()
      modifies this
      ensures query == ""
    {
      query := "";
    }
  }
}
