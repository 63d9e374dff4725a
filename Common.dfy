/**
 * Values shared by the chat client's components: the optional value that stands
 * for JavaScript's null/undefined, time values, the user and chat records as the
 * document store holds them, and the string helpers the components rely on.
 */
module Common {

  /** `None` stands for null, undefined, or a record lodash considers empty. */
  datatype Option<T> = None | Some(value: T)

  /** A point in time as the client sees it. */
  datatype TimeValue =
    | Unset                   // the field is missing or null
    | Stored(seconds: int)    // a store timestamp; only its whole seconds are read
    | LocalDate(millis: int)  // a JavaScript Date made on the client

  /** A user record (the `users` collection, plus the storage row id `docID`). */
  datatype User = User(
    docID: string,
    id: string,
    username: string,
    email: string,
    password: string,
    fullname: string,
    fullnameLower: string,
    provider: string,
    createdAt: TimeValue,
    profilePic: string,
    lastSeen: TimeValue,
    status: string,
    authenticated: bool)

  /** A directional friendship link (the `friends` collection). */
  datatype Link = Link(userId1: string, userId2: string, createdAt: int)

  // The chat type discriminants, as the strings the client stores and compares.
  const ChatTypeAll := "all"
  const ChatTypeGroup := "group"
  const ChatTypePrivate := "private"

  /** Who a chat belongs to: group documents name a creator and members, private ones a pair. */
  datatype Membership =
    | GroupMembers(createdAt: int, createdBy: string, members: seq<string>)
    | PrivatePair(userId1: string, userId2: string)

  /** The fields of a chat document other than its ids and its type. */
  datatype ChatFields = ChatFields(name: string, lastMessage: string, lastMessageAt: int, membership: Membership)

  /** A chat document's data as stored: a possible legacy `_id` key and a possible stored `type`. */
  datatype StoredChat = StoredChat(storedId: Option<string>, storedType: Option<string>, fields: ChatFields)

  /** A chat as the client holds it: the document id, the type discriminant (the `type` key) and the fields. */
  datatype Chat = Chat(id: string, chatType: string, fields: ChatFields)

  predicate IsDigit(c: char) { '0' <= c <= '9' }
  predicate IsAsciiLower(c: char) { 'a' <= c <= 'z' }
  predicate IsAsciiUpper(c: char) { 'A' <= c <= 'Z' }
  predicate IsAsciiLetter(c: char) { IsAsciiLower(c) || IsAsciiUpper(c) }

  predicate AllAsciiLetters(s: string) {
    forall i :: 0 <= i < |s| ==> IsAsciiLetter(s[i])
  }

  function DigitChar(d: nat): (c: char)
    requires d < 10
    ensures IsDigit(c) && c as int - '0' as int == d
  {
    ['0', '1', '2', '3', '4', '5', '6', '7', '8', '9'][d]
  }

  /** JavaScript's `String(n)` for a natural number below 10^21: its decimal digits. */
  function DecimalDigits(n: nat): (s: string)
    ensures |s| >= 1
    ensures forall i :: 0 <= i < |s| ==> IsDigit(s[i])
    ensures n >= 10 ==> s[0] != '0'
    decreases n
  {
    if n < 10 then [DigitChar(n)] else DecimalDigits(n / 10) + [DigitChar(n % 10)]
  }

  /** The number a string of decimal digits denotes. */
  function DecimalValue(s: string): nat
    requires forall i :: 0 <= i < |s| ==> IsDigit(s[i])
  {
    if s == [] then 0
    else
      var last := s[|s| - 1];
      assert IsDigit(last);
      DecimalValue(s[..|s| - 1]) * 10 + (last as int - '0' as int)
  }

  /** Rendering a count and reading it back gives the count. */
  lemma {:induction false} DecimalRoundTrip(n: nat)
    ensures DecimalValue(DecimalDigits(n)) == n
    decreases n
  {
    if n >= 10 {
      var s := DecimalDigits(n);
      assert s[..|s| - 1] == DecimalDigits(n / 10);
      DecimalRoundTrip(n / 10);
    }
  }

  /** Distinct counts render as distinct strings. */
  lemma DecimalInjective(m: nat, n: nat)
    requires DecimalDigits(m) == DecimalDigits(n)
    ensures m == n
  {
    DecimalRoundTrip(m);
    DecimalRoundTrip(n);
  }

  function LowerChar(c: char): (r: char)
    ensures !IsAsciiUpper(r)
    ensures IsAsciiUpper(c) ==> IsAsciiLower(r) && r as int - 'a' as int == c as int - 'A' as int
    ensures !IsAsciiUpper(c) ==> r == c
  {
    if IsAsciiUpper(c) then (c as int - 'A' as int + 'a' as int) as char else c
  }

  /** `toLowerCase` restricted to ASCII: every upper-case ASCII letter becomes its lower-case form. */
  function AsciiLower(s: string): (r: string)
    ensures |r| == |s|
    ensures forall i :: 0 <= i < |s| ==> r[i] == LowerChar(s[i])
  {
    seq(|s|, i requires 0 <= i < |s| => LowerChar(s[i]))
  }

  /** Lower-casing twice is lower-casing once. */
  lemma AsciiLowerIdempotent(s: string)
    ensures AsciiLower(AsciiLower(s)) == AsciiLower(s)
  {
  }

  /** `s.replace(pat, rep)` for a string pattern: only the first occurrence is replaced. */
  function ReplaceFirst(s: string, pat: string, rep: string): (r: string)
    requires |pat| > 0
    decreases |s|
  {
    if |s| < |pat| then s
    else if s[..|pat|] == pat then rep + s[|pat|..]
    else [s[0]] + ReplaceFirst(s[1..], pat, rep)
  }

  /** A string that starts with `pat` has its first occurrence at the start. */
  lemma ReplaceFirstAtStart(pat: string, suffix: string, rep: string)
    requires |pat| > 0
    ensures ReplaceFirst(pat + suffix, pat, rep) == rep + suffix
  {
    var s := pat + suffix;
    assert s[..|pat|] == pat;
    assert s[|pat|..] == suffix;
  }

  /** A string whose first character cannot start `pat` keeps that character and searches on. */
  lemma ReplaceFirstSkip(s: string, pat: string, rep: string)
    requires 0 < |pat| <= |s| && s[0] != pat[0]
    ensures ReplaceFirst(s, pat, rep) == [s[0]] + ReplaceFirst(s[1..], pat, rep)
  {
    assert s[..|pat|][0] != pat[0];
  }

  /** When no character of `prefix` can start `pat`, the first occurrence is the one right after `prefix`. */
  lemma {:induction false} ReplaceFirstAfter(prefix: string, pat: string, suffix: string, rep: string)
    requires |pat| > 0
    requires forall i :: 0 <= i < |prefix| ==> prefix[i] != pat[0]
    ensures ReplaceFirst(prefix + pat + suffix, pat, rep) == prefix + rep + suffix
    decreases |prefix|
  {
    if prefix == [] {
      assert prefix + pat + suffix == pat + suffix;
      ReplaceFirstAtStart(pat, suffix, rep);
    } else {
      var s := prefix + pat + suffix;
      var tail := prefix[1..];
      assert s[0] == prefix[0];
      ReplaceFirstSkip(s, pat, rep);
      assert s[1..] == tail + pat + suffix;
      ReplaceFirstAfter(tail, pat, suffix, rep);
      assert prefix == [prefix[0]] + tail;
      assert [prefix[0]] + (tail + rep + suffix) == prefix + rep + suffix;
    }
  }
}
