/** PRC's player identity: one string of the form "Username:UserId",
    with the name and the id derived from it on every read
    (Erlc.Net/Entities/PlayerName.cs). */
module PlayerNames {

  import opened Wrappers

  /** The character PRC puts between the user name and the user id. */
  const Separator: char := ':'

  /** The wrapped string. `Player` is a `required string`, so it is never null. */
  datatype PlayerName = PlayerName(player: string)

  // ---------------------------------------------------------------------------
  // String.Split(char) with default options: every occurrence of the separator
  // ends a segment, empty segments are kept, and the result is never empty.
  // ---------------------------------------------------------------------------

  function Split(s: string, c: char): (parts: seq<string>)
    ensures |parts| >= 1
    ensures forall i :: 0 <= i < |parts| ==> c !in parts[i]
    decreases |s|
  {
    if s == [] then [""]
    else
      var rest := Split(s[1..], c);
      if s[0] == c then [""] + rest
      else [[s[0]] + rest[0]] + rest[1..]
  }

  /** String.Join(c, parts): the inverse of Split. */
  function Join(parts: seq<string>, c: char): string
    requires |parts| >= 1
    decreases |parts|
  {
    if |parts| == 1 then parts[0] else parts[0] + [c] + Join(parts[1..], c)
  }

  /** Position of the first `c` in `s`, or `|s|` when there is none. */
  function IndexOf(s: string, c: char): (k: nat)
    ensures k <= |s|
    ensures k < |s| ==> s[k] == c
    ensures c !in s[..k]
    ensures k == |s| <==> c !in s
    decreases |s|
  {
    if s == [] then 0
    else if s[0] == c then 0
    else
      var k := 1 + IndexOf(s[1..], c);
      assert s[..k] == [s[0]] + s[1..][..k - 1];
      k
  }

  /** Number of occurrences of `c` in `s`. */
  function Count(s: string, c: char): nat
    decreases |s|
  {
    if s == [] then 0 else (if s[0] == c then 1 else 0) + Count(s[1..], c)
  }

  /** Splitting and joining again gives back the original string. */
  lemma {:induction false} JoinSplit(s: string, c: char)
    ensures Join(Split(s, c), c) == s
    decreases |s|
  {
    if s != [] {
      var rest := Split(s[1..], c);
      JoinSplit(s[1..], c);
      if s[0] != c && |rest| > 1 {
        assert Join(rest, c) == rest[0] + [c] + Join(rest[1..], c);
        assert ([[s[0]] + rest[0]] + rest[1..])[1..] == rest[1..];
      }
    }
  }

  /** A prefix free of the separator sticks to the first segment of what follows. */
  lemma {:induction false} SplitPrefix(a: string, tail: string, c: char)
    requires c !in a
    ensures Split(a + tail, c) == [a + Split(tail, c)[0]] + Split(tail, c)[1..]
    decreases |a|
  {
    if a != [] {
      assert (a + tail)[1..] == a[1..] + tail;
      assert (a + tail)[0] == a[0];
      SplitPrefix(a[1..], tail, c);
      assert [a[0]] + (a[1..] + Split(tail, c)[0]) == a + Split(tail, c)[0];
    } else {
      var parts := Split(tail, c);
      assert a + tail == tail;
      assert parts == [parts[0]] + parts[1..];
      assert a + parts[0] == parts[0];
    }
  }

  /** Splitting cuts at the first separator, then goes on with the remainder. */
  lemma SplitAtFirst(s: string, c: char)
    ensures var k := IndexOf(s, c);
      if k == |s| then Split(s, c) == [s]
      else Split(s, c) == [s[..k]] + Split(s[k + 1..], c)
  {
    var k := IndexOf(s, c);
    if k == |s| {
      SplitPrefix(s, [], c);
      assert s + [] == s;
    } else {
      var tail := s[k..];
      assert s == s[..k] + tail;
      SplitPrefix(s[..k], tail, c);
      assert tail[1..] == s[k + 1..];
      assert Split(tail, c) == [""] + Split(tail[1..], c);
      assert s[..k] + "" == s[..k];
    }
  }

  /** Joining segments that contain no separator and splitting again gives
      back the segments. */
  lemma {:induction false} SplitJoin(parts: seq<string>, c: char)
    requires |parts| >= 1
    requires forall i :: 0 <= i < |parts| ==> c !in parts[i]
    ensures Split(Join(parts, c), c) == parts
    decreases |parts|
  {
    if |parts| == 1 {
      SplitPrefix(parts[0], [], c);
      assert parts[0] + [] == parts[0];
    } else {
      var rest := Join(parts[1..], c);
      SplitJoin(parts[1..], c);
      SplitPrefix(parts[0], [c] + rest, c);
      assert parts[0] + [c] + rest == parts[0] + ([c] + rest);
      assert ([c] + rest)[1..] == rest;
      assert Split([c] + rest, c) == [""] + Split(rest, c);
      assert parts[0] + "" == parts[0];
      assert parts == [parts[0]] + parts[1..];
    }
  }

  /** There is one more segment than there are separators. */
  lemma {:induction false} SplitCount(s: string, c: char)
    ensures |Split(s, c)| == Count(s, c) + 1
    decreases |s|
  {
    if s != [] {
      SplitCount(s[1..], c);
    }
  }

  // ---------------------------------------------------------------------------
  // The accessors and conversions of PlayerName.cs.
  // ---------------------------------------------------------------------------

  /** `Name => Player.Split(':')[0]`: the text before the first ':', or the
      whole string when there is none. It never fails. */
  function Name(p: PlayerName): (name: string)
    ensures name == p.player[..IndexOf(p.player, Separator)]
    ensures Separator !in name
  {
    SplitAtFirst(p.player, Separator);
    Split(p.player, Separator)[0]
  }

  /** `Id => Player.Split(':')[1]`: the segment between the first and the
      second ':' (or the end). `None` stands for the IndexOutOfRangeException
      thrown when the string has no ':'. */
  function Id(p: PlayerName): (id: Option<string>)
    ensures id.None? <==> Separator !in p.player
    ensures id.Some? ==>
      var rest := p.player[IndexOf(p.player, Separator) + 1..];
      id.value == rest[..IndexOf(rest, Separator)]
    ensures id.Some? ==> Separator !in id.value
  {
    var parts := Split(p.player, Separator);
    SplitAtFirst(p.player, Separator);
    if |parts| < 2 then None
    else
      var k := IndexOf(p.player, Separator);
      SplitAtFirst(p.player[k + 1..], Separator);
      Some(parts[1])
  }

  /** `implicit operator string(PlayerName)`: the wrapped string, unchanged. */
  function ToText(p: PlayerName): string
  {
    p.player
  }

  /** `implicit operator PlayerName?(string?)`: a null string converts to
      null, any other string is wrapped as it is. */
  function FromText(s: Option<string>): (p: Option<PlayerName>)
    ensures p.None? <==> s.None?
    ensures p.Some? ==> ToText(p.value) == s.value
  {
    if s.Some? then Some(PlayerName(s.value)) else None
  }

  /** Converting a PlayerName to a string and back gives the same PlayerName. */
  lemma TextRoundTrip(p: PlayerName)
    ensures FromText(Some(ToText(p))) == Some(p)
  {
  }

  /** With exactly one ':' the string is the name, the ':' and the id. */
  lemma {:induction false} NameColonId(p: PlayerName)
    requires Count(p.player, Separator) == 1
    ensures Id(p).Some?
    ensures Name(p) + [Separator] + Id(p).value == p.player
  {
    var parts := Split(p.player, Separator);
    SplitCount(p.player, Separator);
    JoinSplit(p.player, Separator);
    assert |parts| == 2;
    assert Join(parts, Separator) == parts[0] + [Separator] + Join(parts[1..], Separator);
  }

  /** Name and Id reproduce the segments they were joined from: the pair
      (name, id) can be recovered from "name:id" whenever neither contains ':'. */
  lemma {:induction false} NameIdOfJoined(name: string, id: string)
    requires Separator !in name && Separator !in id
    ensures Name(PlayerName(name + [Separator] + id)) == name
    ensures Id(PlayerName(name + [Separator] + id)) == Some(id)
  {
    var parts := [name, id];
    SplitJoin(parts, Separator);
    assert Join(parts[1..], Separator) == id;
    assert Join(parts, Separator) == name + [Separator] + id;
  }

  /** The example in the documentation of PlayerName. */
  lemma WorkedExample(p: PlayerName)
    requires p.player == "musicaintreal:7081359404"
    ensures Name(p) == "musicaintreal"
    ensures Id(p) == Some("7081359404")
  {
    var name, id := p.player[..13], p.player[14..];
    assert p.player == name + [Separator] + id;
    assert name == "musicaintreal" && id == "7081359404";
    NameIdOfJoined(name, id);
  }

  /** Id is the second segment only, not the whole remainder. */
  lemma SeveralSeparators(p: PlayerName)
    requires p.player == "a:b:c"
    ensures Name(p) == "a"
    ensures Id(p) == Some("b")
  {
    var parts := ["a", "b", "c"];
    SplitJoin(parts, Separator);
    assert Join(parts, Separator) == "a:b:c";
  }

  /** The empty string has an empty name and no id. */
  lemma EmptyPlayer(p: PlayerName)
    requires p.player == ""
    ensures Name(p) == ""
    ensures Id(p).None?
  {
  }
}
