/**
 * The user helpers: the account record built at registration, the friendship
 * lookups, and the "last active" formatter that turns the time elapsed since a
 * user's `lastSeen` into one of seven strings.
 */
module UserUtil {
  import opened Common

  // ---------------------------------------------------------------------------
  // Account record
  // ---------------------------------------------------------------------------

  const ProfilePicDefault := "profile.jpg"
  const StatusOnline := "online"

  /**
   * `createUserAccount`: when the email lookup found a record, that record is
   * returned; otherwise a new record is built whose `id` is the generated `_id`
   * and whose storage row id is the one the store assigned.
   */
  function CreateUserAccount(existing: Option<User>, username: string, email: string, fullname: string,
                             password: string, provider: string, generatedId: string, newDocId: string,
                             now: int): (u: User)
    ensures existing.Some? ==> u == existing.value
    ensures existing.None? ==> u.id == generatedId && u.docID == newDocId
    ensures existing.None? ==> u.fullname == fullname && u.fullnameLower == AsciiLower(u.fullname)
    ensures existing.None? ==> u.lastSeen == u.createdAt == LocalDate(now)
    ensures existing.None? ==> u.status == StatusOnline && u.authenticated
    ensures existing.None? ==> u.username == username && u.email == email && u.password == password
    ensures existing.None? ==> u.provider == provider && u.profilePic == ProfilePicDefault
  {
    if existing.Some? then existing.value
    else
      var createdTime := LocalDate(now);
      User(docID := newDocId, id := generatedId, username := username, email := email,
           password := password, fullname := fullname, fullnameLower := AsciiLower(fullname),
           provider := provider, createdAt := createdTime, profilePic := ProfilePicDefault,
           lastSeen := createdTime, status := StatusOnline, authenticated := true)
  }

  /** The lower-cased name a new account stores is already lower case. */
  lemma NewAccountSearchKeyStable(username: string, email: string, fullname: string, password: string,
                                  provider: string, generatedId: string, newDocId: string, now: int)
    ensures var u := CreateUserAccount(None, username, email, fullname, password, provider, generatedId, newDocId, now);
            AsciiLower(u.fullnameLower) == u.fullnameLower &&
            forall i :: 0 <= i < |u.fullnameLower| ==> !IsAsciiUpper(u.fullnameLower[i])
  {
    AsciiLowerIdempotent(fullname);
  }

  // ---------------------------------------------------------------------------
  // Friendship links
  // ---------------------------------------------------------------------------

  /** Some stored link goes from `from` to `to`. */
  predicate HasLink(store: seq<Link>, from: string, to: string) {
    exists i :: 0 <= i < |store| && store[i].userId1 == from && store[i].userId2 == to
  }

  /** What `isFriend` returns: whether a link exists, and the pair in link order. */
  datatype Friendship = Friendship(friends: bool, user1: User, user2: User)

  /**
   * `isFriend`: the two queries look for a link user->friend and friend->user.
   * With neither, the pair is (user, friend) and not friends; a forward link
   * keeps that order; only a reverse link swaps it.
   */
  function IsFriend(store: seq<Link>, user: User, friend: User): (r: Friendship)
    ensures r.friends <==> HasLink(store, user.id, friend.id) || HasLink(store, friend.id, user.id)
    ensures r.friends ==> HasLink(store, r.user1.id, r.user2.id)
    ensures HasLink(store, user.id, friend.id) || !r.friends ==> r.user1 == user && r.user2 == friend
    ensures multiset{r.user1, r.user2} == multiset{user, friend}
  {
    var forward := HasLink(store, user.id, friend.id);
    var reverse := HasLink(store, friend.id, user.id);
    if !forward && !reverse then Friendship(false, user, friend)
    else if forward then Friendship(true, user, friend)
    else Friendship(true, friend, user)
  }

  /** The links whose `userId1` is `id` (the first query of `getAllFriendshipLinks`). */
  function LinksWithUserId1(store: seq<Link>, id: string): (r: seq<Link>)
    ensures |r| <= |store|
    ensures forall l :: l in r <==> l in store && l.userId1 == id
  {
    if store == [] then []
    else (if store[0].userId1 == id then [store[0]] else []) + LinksWithUserId1(store[1..], id)
  }

  /** The links whose `userId2` is `id` (the second query). */
  function LinksWithUserId2(store: seq<Link>, id: string): (r: seq<Link>)
    ensures |r| <= |store|
    ensures forall l :: l in r <==> l in store && l.userId2 == id
  {
    if store == [] then []
    else (if store[0].userId2 == id then [store[0]] else []) + LinksWithUserId2(store[1..], id)
  }

  /** The object `doc.data()` returns: a new object every time it is called. */
  class LinkData {
    const userId1: string
    const userId2: string
    const createdAt: int

    constructor (l: Link)
      ensures Value() == l
    {
      userId1, userId2, createdAt := l.userId1, l.userId2, l.createdAt;
    }

    function Value(): Link {
      Link(userId1, userId2, createdAt)
    }
  }

  /**
   * One snapshot's loop of `getAllFriendshipLinks`: each document's `data` is
   * pushed unless already included, which a new object never is, so every
   * link is appended in order.
   */
  method AppendSnapshot(links: seq<LinkData>, snapshot: seq<Link>) returns (r: seq<LinkData>)
    ensures |r| == |links| + |snapshot| && r[..|links|] == links
    ensures forall k :: 0 <= k < |snapshot| ==> r[|links| + k].Value() == snapshot[k]
  {
    r := links;
    var i := 0;
    while i < |snapshot|
      invariant 0 <= i <= |snapshot|
      invariant |r| == |links| + i && r[..|links|] == links
      invariant forall k :: 0 <= k < i ==> r[|links| + k].Value() == snapshot[k]
    {
      var data := new LinkData(snapshot[i]);
      if data !in r {
        r := r + [data];
      }
      i := i + 1;
    }
  }

  /**
   * `getAllFriendshipLinks`: the links of both queries, first query first. The
   * `includes` guard compares objects by reference and every `data` is a new
   * object, so nothing is ever skipped: a link from the user to the user
   * appears twice.
   */
  method GetAllFriendshipLinks(store: seq<Link>, user: User) returns (links: seq<LinkData>)
    ensures var all := LinksWithUserId1(store, user.id) + LinksWithUserId2(store, user.id);
            |links| == |all| && forall i :: 0 <= i < |links| ==> links[i].Value() == all[i]
    ensures forall i :: 0 <= i < |links| ==> links[i].userId1 == user.id || links[i].userId2 == user.id
  {
    var snapshot1 := LinksWithUserId1(store, user.id);
    var snapshot2 := LinksWithUserId2(store, user.id);
    links := [];
    links := AppendSnapshot(links, snapshot1);
    var first := links;
    links := AppendSnapshot(links, snapshot2);
    var all := snapshot1 + snapshot2;
    LinksTouchUser(store, user.id);
    forall i | 0 <= i < |links|
      ensures links[i].Value() == all[i]
      ensures links[i].userId1 == user.id || links[i].userId2 == user.id
    {
      if i < |snapshot1| {
        assert links[i] == first[i];
      } else {
        assert links[|snapshot1| + (i - |snapshot1|)].Value() == snapshot2[i - |snapshot1|];
      }
      assert all[i] in all;
    }
  }

  /** Every link either query returns has the user at one end. */
  lemma LinksTouchUser(store: seq<Link>, id: string)
    ensures forall l :: l in LinksWithUserId1(store, id) + LinksWithUserId2(store, id) ==>
      l.userId1 == id || l.userId2 == id
  {
  }

  /** A stored link from the user to the user is returned twice, once per query. */
  lemma SelfLinkReturnedTwice(store: seq<Link>, id: string, l: Link)
    requires l in store && l.userId1 == id && l.userId2 == id
    ensures multiset(LinksWithUserId1(store, id) + LinksWithUserId2(store, id))[l] >= 2
  {
    assert l in LinksWithUserId1(store, id);
    assert l in LinksWithUserId2(store, id);
  }

  // ---------------------------------------------------------------------------
  // Last-active formatter
  // ---------------------------------------------------------------------------

  // The strings of `activeTimeString`.
  const NotAvailableText := ""
  const NowText := "Active now"
  const MinutesAgoTemplate := "Active {0}m ago"
  const HoursAgoTemplate := "Active {0}h ago"
  const DaysAgoTemplate := "Active {0}d ago"
  const WeeksAgoTemplate := "Active {0}wk ago"
  const MonthsAgoTemplate := "Active {0}mo ago"
  const YearsAgoTemplate := "Active {0}y ago"
  const Placeholder := "{0}"

  /** The units of the six "ago" buckets; a month is fixed at four weeks, a year at twelve such months. */
  datatype TimeUnit = Minutes | Hours | Days | Weeks | Months | Years

  function UnitSeconds(u: TimeUnit): nat {
    match u
    case Minutes => 60
    case Hours => 60 * 60
    case Days => 60 * 60 * 24
    case Weeks => 60 * 60 * 24 * 7
    case Months => 60 * 60 * 24 * 7 * 4
    case Years => 60 * 60 * 24 * 7 * 4 * 12
  }

  /** Where a bucket ends: the size of the next larger unit (years never end). */
  function BucketEndSeconds(u: TimeUnit): nat
    requires u != Years
  {
    match u
    case Minutes => UnitSeconds(Hours)
    case Hours => UnitSeconds(Days)
    case Days => UnitSeconds(Weeks)
    case Weeks => UnitSeconds(Months)
    case Months => UnitSeconds(Years)
  }

  function Template(u: TimeUnit): string {
    match u
    case Minutes => MinutesAgoTemplate
    case Hours => HoursAgoTemplate
    case Days => DaysAgoTemplate
    case Weeks => WeeksAgoTemplate
    case Months => MonthsAgoTemplate
    case Years => YearsAgoTemplate
  }

  /** What the template says after the count. */
  function UnitSuffix(u: TimeUnit): string {
    match u
    case Minutes => "m ago"
    case Hours => "h ago"
    case Days => "d ago"
    case Weeks => "wk ago"
    case Months => "mo ago"
    case Years => "y ago"
  }

  /** Each unit and bucket end in milliseconds. */
  lemma UnitFacts()
    ensures 1000 * UnitSeconds(Minutes) == 60000 && 1000 * UnitSeconds(Hours) == 3600000
    ensures 1000 * UnitSeconds(Days) == 86400000 && 1000 * UnitSeconds(Weeks) == 604800000
    ensures 1000 * UnitSeconds(Months) == 2419200000 && 1000 * UnitSeconds(Years) == 29030400000
    ensures BucketEndSeconds(Minutes) / UnitSeconds(Minutes) == 60
    ensures BucketEndSeconds(Hours) / UnitSeconds(Hours) == 24
    ensures BucketEndSeconds(Days) / UnitSeconds(Days) == 7
    ensures BucketEndSeconds(Weeks) / UnitSeconds(Weeks) == 4
    ensures BucketEndSeconds(Months) / UnitSeconds(Months) == 12
  {
  }

  /** The seven outcomes of the formatter's switch for a non-empty `lastSeen`. */
  datatype LastActive = ActiveNow | ActiveAgo(count: nat, unit: TimeUnit)

  /**
   * The switch over the elapsed time, given in whole milliseconds (the source
   * divides milliseconds by 1000 and compares seconds). Exactly one bucket
   * applies: "now" below 60 s, including a negative elapsed time, and otherwise
   * the unit whose range holds the elapsed time, counted with floor.
   */
  function Bucket(elapsedMs: int): (b: LastActive)
    ensures b.ActiveNow? <==> elapsedMs < 1000 * 60
    ensures b.ActiveAgo? ==> 1000 * UnitSeconds(b.unit) <= elapsedMs
    ensures b.ActiveAgo? && b.unit != Years ==> elapsedMs < 1000 * BucketEndSeconds(b.unit)
    ensures b.ActiveAgo? ==> b.count == elapsedMs / (1000 * UnitSeconds(b.unit))
    ensures b.ActiveAgo? ==> 1 <= b.count
    ensures b.ActiveAgo? && b.unit != Years ==> b.count < BucketEndSeconds(b.unit) / UnitSeconds(b.unit)
  {
    UnitFacts();
    var t := elapsedMs;
    if t < 1000 * 60 then ActiveNow
    else if t < 1000 * (60 * 60) then ActiveAgo(t / (1000 * 60), Minutes)
    else if t < 1000 * (60 * 60 * 24) then ActiveAgo(t / (1000 * 60 * 60), Hours)
    else if t < 1000 * (60 * 60 * 24 * 7) then ActiveAgo(t / (1000 * 60 * 60 * 24), Days)
    else if t < 1000 * (60 * 60 * 24 * 7 * 4) then ActiveAgo(t / (1000 * 60 * 60 * 24 * 7), Weeks)
    else if t < 1000 * (60 * 60 * 24 * 7 * 4 * 12) then ActiveAgo(t / (1000 * 60 * 60 * 24 * 7 * 4), Months)
    else ActiveAgo(t / (1000 * 60 * 60 * 24 * 7 * 4 * 12), Years)
  }

  /** The bucket's string: the fixed "now" text, or the unit's template with the count substituted. */
  function Render(b: LastActive): string {
    match b
    case ActiveNow => NowText
    case ActiveAgo(n, u) => ReplaceFirst(Template(u), Placeholder, DecimalDigits(n))
  }

  /** Every template is "Active ", the placeholder and the unit's suffix. */
  lemma TemplateShape(u: TimeUnit)
    ensures Template(u) == "Active " + Placeholder + UnitSuffix(u)
  {
    match u
    case Minutes => assert MinutesAgoTemplate == "Active " + Placeholder + "m ago";
    case Hours => assert HoursAgoTemplate == "Active " + Placeholder + "h ago";
    case Days => assert DaysAgoTemplate == "Active " + Placeholder + "d ago";
    case Weeks => assert WeeksAgoTemplate == "Active " + Placeholder + "wk ago";
    case Months => assert MonthsAgoTemplate == "Active " + Placeholder + "mo ago";
    case Years => assert YearsAgoTemplate == "Active " + Placeholder + "y ago";
  }

  /** Each "ago" string is "Active ", the count's digits and the unit's suffix. */
  lemma RenderAgo(n: nat, u: TimeUnit)
    ensures Render(ActiveAgo(n, u)) == "Active " + DecimalDigits(n) + UnitSuffix(u)
  {
    var prefix := "Active ";
    TemplateShape(u);
    assert forall i :: 0 <= i < |prefix| ==> prefix[i] != Placeholder[0];
    ReplaceFirstAfter(prefix, Placeholder, UnitSuffix(u), DecimalDigits(n));
  }

  /** Only the "now" bucket renders as "Active now". */
  lemma RenderIsNowText(b: LastActive)
    ensures Render(b) == NowText <==> b.ActiveNow?
    ensures Render(b) != NotAvailableText
  {
    if b.ActiveAgo? {
      RenderAgo(b.count, b.unit);
      var s := Render(b);
      assert s[7] == DecimalDigits(b.count)[0];
      assert IsDigit(s[7]);
      assert NowText[7] == 'n';
    }
  }

  /** The whole seconds of a store timestamp, if `lastSeen` is one; lodash finds a Date object empty. */
  function LastSeenSeconds(user: Option<User>): Option<int> {
    if user.Some? && user.value.lastSeen.Stored? then Some(user.value.lastSeen.seconds) else None
  }

  /** The text for a non-empty `lastSeen` the given milliseconds ago: "Active now" exactly below a minute. */
  function ElapsedText(elapsedMs: int): (r: string)
    ensures r == NowText <==> elapsedMs < 1000 * 60
    ensures r != NotAvailableText
  {
    var b := Bucket(elapsedMs);
    RenderIsNowText(b);
    Render(b)
  }

  /**
   * `getUserLastActive` at client time `nowMs`: the empty string when the user
   * or its `lastSeen` is missing or lodash-empty, and the bucket's string
   * otherwise.
   */
  function GetUserLastActive(user: Option<User>, nowMs: int): (r: string)
    ensures r == NotAvailableText <==> LastSeenSeconds(user).None?
    ensures r == NowText <==> LastSeenSeconds(user).Some? && nowMs - 1000 * LastSeenSeconds(user).value < 1000 * 60
  {
    var seconds := LastSeenSeconds(user);
    if seconds.None? then NotAvailableText else ElapsedText(nowMs - 1000 * seconds.value)
  }

  lemma DigitsOf59()
    ensures DecimalDigits(59) == "59"
  {
    assert DecimalDigits(5) == ['5'];
    assert DecimalDigits(59) == DecimalDigits(5) + [DigitChar(9)];
  }

  /** The strings of the buckets around the first two boundaries. */
  lemma OneMinuteText()
    ensures Render(ActiveAgo(1, Minutes)) == "Active 1m ago"
  {
    RenderAgo(1, Minutes);
    assert DecimalDigits(1) == "1";
  }

  lemma FiftyNineMinutesText()
    ensures Render(ActiveAgo(59, Minutes)) == "Active 59m ago"
  {
    RenderAgo(59, Minutes);
    DigitsOf59();
  }

  lemma OneHourText()
    ensures Render(ActiveAgo(1, Hours)) == "Active 1h ago"
  {
    RenderAgo(1, Hours);
    assert DecimalDigits(1) == "1";
  }

  /** The unit whose range holds the elapsed time: from one unit up to the next unit (years have no end). */
  predicate InUnit(elapsedMs: int, u: TimeUnit) {
    1000 * UnitSeconds(u) <= elapsedMs && (u != Years ==> elapsedMs < 1000 * BucketEndSeconds(u))
  }

  /** The unit ranges cover every elapsed time of a minute or more. */
  lemma SomeUnit(elapsedMs: int)
    requires elapsedMs >= 1000 * 60
    ensures exists u :: InUnit(elapsedMs, u)
  {
    var b := Bucket(elapsedMs);
    assert InUnit(elapsedMs, b.unit);
  }

  /** An elapsed time in a unit's range is counted in that unit, with floor. */
  lemma BucketOfUnit(elapsedMs: int, u: TimeUnit)
    requires InUnit(elapsedMs, u)
    ensures Bucket(elapsedMs) == ActiveAgo(elapsedMs / (1000 * UnitSeconds(u)), u)
  {
    UnitFacts();
    var b := Bucket(elapsedMs);
    assert b.ActiveAgo?;
    assert b.unit == u;
  }

  lemma LastActiveIsElapsed(user: Option<User>, nowMs: int)
    requires LastSeenSeconds(user).Some?
    ensures GetUserLastActive(user, nowMs) == ElapsedText(nowMs - 1000 * LastSeenSeconds(user).value)
  {
  }

  /** An elapsed time in a unit's range reads "Active ", the whole number of units and the unit's suffix. */
  lemma ElapsedAgo(elapsedMs: int, u: TimeUnit)
    requires InUnit(elapsedMs, u)
    ensures ElapsedText(elapsedMs) == "Active " + DecimalDigits(elapsedMs / (1000 * UnitSeconds(u))) + UnitSuffix(u)
  {
    BucketOfUnit(elapsedMs, u);
    RenderAgo(elapsedMs / (1000 * UnitSeconds(u)), u);
  }

  /**
   * With a stored `lastSeen`, an elapsed time in a unit's range gives
   * "Active ", the whole number of units elapsed and the unit's suffix.
   */
  lemma AgoText(user: Option<User>, nowMs: int, u: TimeUnit)
    requires LastSeenSeconds(user).Some?
    requires InUnit(nowMs - 1000 * LastSeenSeconds(user).value, u)
    ensures var elapsedMs := nowMs - 1000 * LastSeenSeconds(user).value;
      GetUserLastActive(user, nowMs) == "Active " + DecimalDigits(elapsedMs / (1000 * UnitSeconds(u))) + UnitSuffix(u)
  {
    LastActiveIsElapsed(user, nowMs);
    ElapsedAgo(nowMs - 1000 * LastSeenSeconds(user).value, u);
  }

  /** The boundaries named in the design: 59 s, 60 s, 3599 s and 3600 s after `lastSeen`. */
  lemma BucketBoundaries()
    ensures ElapsedText(1000 * 59) == "Active now"
    ensures ElapsedText(1000 * 60) == "Active 1m ago"
    ensures ElapsedText(1000 * 3599) == "Active 59m ago"
    ensures ElapsedText(1000 * 3600) == "Active 1h ago"
  {
    assert Bucket(1000 * 60) == ActiveAgo(1, Minutes);
    OneMinuteText();
    assert Bucket(1000 * 3599) == ActiveAgo(59, Minutes);
    FiftyNineMinutesText();
    assert Bucket(1000 * 3600) == ActiveAgo(1, Hours);
    OneHourText();
  }
}
