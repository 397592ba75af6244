/** Message headers of the chat export: `<timestamp> <user>[ / <group nick>] / <uid>`, as
    the regular expression
    `^(\d{4}-\d{2}-\d{2} \d{2}:\d{2}:\d{2}) (.+?)(?: / (.+?))? / (\d+)$` reads them. */
module Header {
  import opened Wrappers
  import opened Text
  import opened Clock

  datatype Header = Header(time: string, user: string, group: Option<string>, uid: string)

  const Sep: string := " / "

  /** The separator ` / ` starts at `u`. */
  predicate SepAt(r: string, u: nat) {
    u + 3 <= |r| && r[u..u + 3] == Sep
  }

  /** Where the lazy user name may end when the uid separator is at `l`: at a separator that
      leaves room for a non-empty group nick before `l`, or at `l` itself. */
  predicate UserEndsAt(r: string, l: nat, u: nat) {
    SepAt(r, u) && (u + 4 <= l || u == l)
  }

  /** The shortest user name from position `u` on: the lazy `(.+?)` tries the shortest user
      first, and for each one first the group, then no group. */
  function UserEnd(r: string, l: nat, u: nat): (e: nat)
    requires 1 <= u <= l && SepAt(r, l)
    ensures u <= e <= l && UserEndsAt(r, l, e)
    ensures forall v :: u <= v < e ==> !UserEndsAt(r, l, v)
    decreases l - u
  {
    if UserEndsAt(r, l, u) then u else UserEnd(r, l, u + 1)
  }

  /** The part of a header after the timestamp and its space: the uid is the run of digits
      that ends the text, after the last separator; the user is the shortest non-empty name
      that is followed by a separator and either a non-empty group nick and the uid
      separator, or the uid separator at once. */
  function ParseRest(r: string): (p: Option<(string, Option<string>, string)>)
    ensures p.Some? ==> p.value.0 != [] && IsDigits(p.value.2)
    ensures p.Some? && p.value.1.Some? ==> p.value.1.value != []
  {
    var d := TrailingDigits(r);
    if d == 0 || |r| < d + 4 || !SepAt(r, |r| - d - 3) then None
    else
      var l := |r| - d - 3;
      var u := UserEnd(r, l, 1);
      Some((r[..u], if u < l then Some(r[u + 3..l]) else None, r[l + 3..]))
  }

  /** The header regex on `line` (`$` also matches before one final newline). The timestamp
      is the first 19 characters and a space follows it. `.` does not match a newline, so
      any other newline means no match. */
  function ParseHeader(line: string): (r: Option<Header>)
    ensures r.Some? ==> TimestampShape(r.value.time) && r.value.user != [] && IsDigits(r.value.uid)
    ensures r.Some? && r.value.group.Some? ==> r.value.group.value != []
  {
    var body := Chomp(line);
    if |body| < 20 || !TimestampShape(body[..19]) || body[19] != ' ' || '\n' in body then None
    else
      match ParseRest(body[20..])
      case None => None
      case Some((user, group, uid)) => Some(Header(body[..19], user, group, uid))
  }

  /** The line without one final newline, where `$` may match. */
  function Chomp(line: string): (body: string)
    ensures line == body || line == body + "\n"
  {
    if line != [] && line[|line| - 1] == '\n' then line[..|line| - 1] else line
  }

  /** The header text the parts were read from. */
  function HeaderText(h: Header): string {
    h.time + (" " + RestText(h.user, h.group, h.uid))
  }

  function RestText(user: string, group: Option<string>, uid: string): string {
    user + (if group.Some? then Sep + (group.value + (Sep + uid)) else Sep + uid)
  }

  /** What a header names: the user, its optional group nick and its uid, and no newline. */
  predicate WellFormed(h: Header) {
    && TimestampShape(h.time) && h.user != [] && IsDigits(h.uid)
    && (h.group.Some? ==> h.group.value != [] && '\n' !in h.group.value)
    && '\n' !in h.user
    && UserFirst(h.user)
  }

  /** No separator starts inside the user name or straddles its end. */
  predicate UserFirst(user: string) {
    forall v :: 1 <= v < |user| ==> !SepAt(user + Sep, v)
  }

  lemma ParseRestSound(r: string)
    requires ParseRest(r).Some?
    ensures r == RestText(ParseRest(r).value.0, ParseRest(r).value.1, ParseRest(r).value.2)
  {
    var d := TrailingDigits(r);
    var l := |r| - d - 3;
    var u := UserEnd(r, l, 1);
    SuffixSplit(r, l, l + 3);
    assert r[l..] == Sep + r[l + 3..];
    SuffixSplit(r, 0, u);
    if u < l {
      SuffixSplit(r, u + 3, l);
      SuffixSplit(r, u, u + 3);
    }
  }

  /** A parsed header is read back from its own parts when printed again. */
  lemma ParseHeaderSound(line: string)
    requires ParseHeader(line).Some?
    ensures line == HeaderText(ParseHeader(line).value)
      || line == HeaderText(ParseHeader(line).value) + "\n"
  {
    var body := Chomp(line);
    ParseHeaderParts(line);
    ParseRestSound(body[20..]);
    TimeSplit(body);
  }

  /** What a successful `ParseHeader` read: the timestamp, a space, and a rest that parses. */
  lemma ParseHeaderParts(line: string)
    requires ParseHeader(line).Some?
    ensures var body := Chomp(line);
      && |body| >= 20 && body[19] == ' ' && ParseRest(body[20..]).Some?
      && var p := ParseRest(body[20..]).value;
        ParseHeader(line).value == Header(body[..19], p.0, p.1, p.2)
  {
  }

  /** The timestamp, the space, and the rest. */
  lemma TimeSplit(body: string)
    requires |body| >= 20 && body[19] == ' '
    ensures body == body[..19] + (" " + body[20..])
  {
    SuffixSplit(body, 0, 19);
    SuffixSplit(body, 19, 20);
    assert body[19..20] == " ";
  }

  /** The rest of a header printed from well-formed parts parses back to those parts. */
  lemma ParseRestText(user: string, group: Option<string>, uid: string)
    requires user != [] && UserFirst(user) && IsDigits(uid)
    requires group.Some? ==> group.value != []
    ensures ParseRest(RestText(user, group, uid)) == Some((user, group, uid))
  {
    RestCut(user, group, uid);
    ParseRestFrom(RestText(user, group, uid), user, group, uid);
  }

  /** `ParseRest` on a text cut into a user, a separator, an optional group nick and its
      separator, and a uid. */
  lemma ParseRestFrom(r: string, user: string, group: Option<string>, uid: string)
    requires user != [] && UserFirst(user) && IsDigits(uid)
    requires group.Some? ==> group.value != []
    requires |user| + |uid| + 3 <= |r|
    requires var l := |r| - |uid| - 3;
      && r[..|user|] == user && SepAt(r, |user|) && l >= |user| && SepAt(r, l) && r[l + 3..] == uid
      && (group.Some? ==> l == |user| + 3 + |group.value| && r[|user| + 3..l] == group.value)
      && (group.None? ==> l == |user|)
    ensures ParseRest(r) == Some((user, group, uid))
  {
    var l := |r| - |uid| - 3;
    SuffixSplit(r, l, l + 3);
    TrailingDigitsAfterSep(r, uid);
    PrefixSplit(r, |user|, |user| + 3);
    UserEndIsUser(r, user, l);
    ParseRestAt(r, |uid|, l, |user|);
  }

  /** The user, its separator, the group nick, the uid separator and the uid, cut back out of
      the printed rest. */
  lemma RestCut(user: string, group: Option<string>, uid: string)
    ensures var r := RestText(user, group, uid);
      var l := |r| - |uid| - 3;
      && |user| + |uid| + 3 <= |r| && r[..|user|] == user && SepAt(r, |user|) && l >= |user| && SepAt(r, l) && r[l + 3..] == uid
      && (group.Some? ==> l == |user| + 3 + |group.value| && r[|user| + 3..l] == group.value)
      && (group.None? ==> l == |user|)
  {
    var r := RestText(user, group, uid);
    var rest := if group.Some? then group.value + (Sep + uid) else uid;
    assert r == user + (Sep + rest);
    Pieces(r, user, Sep, rest);
    if group.Some? {
      GroupTail(r, |user| + 3, group.value, uid);
    }
  }

  /** `ParseRest` once the uid length, the uid separator and the user's end are known. */
  lemma ParseRestAt(r: string, d: nat, l: nat, u: nat)
    requires TrailingDigits(r) == d >= 1 && |r| >= d + 4 && l == |r| - d - 3 && SepAt(r, l)
    requires 1 <= l && UserEnd(r, l, 1) == u
    ensures ParseRest(r) == Some((r[..u], if u < l then Some(r[u + 3..l]) else None, r[l + 3..]))
  {
  }

  /** The group nick, the uid separator and the uid, cut back out of the text after the
      user's separator at `a`. */
  lemma GroupTail(r: string, a: nat, group: string, uid: string)
    requires a <= |r| && r[a..] == group + (Sep + uid)
    ensures |r| == a + |group| + 3 + |uid|
    ensures r[a..a + |group|] == group && SepAt(r, a + |group|) && r[a + |group| + 3..] == uid
  {
    var x := r[a..];
    Pieces(x, group, Sep, uid);
    SliceOfSuffix(r, a, 0, |group|);
    SliceOfSuffix(r, a, |group|, |group| + 3);
    assert x[|group| + 3..] == r[a + |group| + 3..];
  }

  /** The three pieces of `a + (b + c)`, cut back out. */
  lemma Pieces(r: string, a: string, b: string, c: string)
    requires r == a + (b + c)
    ensures r[..|a|] == a && r[|a|..|a| + |b|] == b && r[|a| + |b|..] == c
  {
    assert r[|a|..] == b + c;
  }

  lemma SliceOfSuffix(r: string, a: nat, i: nat, j: nat)
    requires a + j <= |r| && i <= j
    ensures r[a..][i..j] == r[a + i..a + j]
  {
  }

  lemma PrefixSplit(s: string, a: nat, b: nat)
    requires a <= b <= |s|
    ensures s[..b] == s[..a] + s[a..b]
  {
  }

  lemma UserEndIsUser(r: string, user: string, l: nat)
    requires user != [] && UserFirst(user) && |user| <= l && SepAt(r, l)
    requires |user| + 3 <= |r| && r[..|user| + 3] == user + Sep
    requires |user| + 4 <= l || |user| == l
    ensures UserEnd(r, l, 1) == |user|
  {
    forall v | 1 <= v < |user|
      ensures !SepAt(r, v)
    {
      assert r[v..v + 3] == (user + Sep)[v..v + 3];
      assert !SepAt(user + Sep, v);
    }
    assert SepAt(r, |user|) by {
      assert r[|user|..|user| + 3] == (user + Sep)[|user|..];
    }
    assert UserEndsAt(r, l, |user|);
  }

  /** A header printed from well-formed parts parses back to exactly those parts: the user
      ends at the first separator after its first character, and the uid is the last field. */
  lemma ParseHeaderText(h: Header)
    requires WellFormed(h)
    ensures ParseHeader(HeaderText(h)) == Some(h)
  {
    var line := HeaderText(h);
    var r := RestText(h.user, h.group, h.uid);
    assert line[..19] == h.time && line[19] == ' ' && line[20..] == r by {
      assert line == h.time + ([' '] + r);
      Pieces(line, h.time, [' '], r);
    }
    assert line[|line| - 1] != '\n' by {
      assert line[|line| - 1] == h.uid[|h.uid| - 1];
    }
    NoNewlineIn(h);
    ParseRestText(h.user, h.group, h.uid);
    ParseHeaderAt(line, h.user, h.group, h.uid);
  }

  /** `ParseHeader` on a line without a newline whose rest parses. */
  lemma ParseHeaderAt(line: string, user: string, group: Option<string>, uid: string)
    requires |line| >= 20 && TimestampShape(line[..19]) && line[19] == ' ' && '\n' !in line
    requires ParseRest(line[20..]) == Some((user, group, uid))
    ensures ParseHeader(line) == Some(Header(line[..19], user, group, uid))
  {
    assert line[|line| - 1] != '\n';
    assert Chomp(line) == line;
  }

  lemma NoNewlineIn(h: Header)
    requires WellFormed(h)
    ensures '\n' !in HeaderText(h)
  {
    assert '\n' !in h.time by {
      forall k | 0 <= k < |h.time| ensures h.time[k] != '\n' {
        if k < 4 { assert h.time[k] == h.time[0..4][k]; }
        else if 5 <= k < 7 { assert h.time[k] == h.time[5..7][k - 5]; }
        else if 8 <= k < 10 { assert h.time[k] == h.time[8..10][k - 8]; }
        else if 11 <= k < 13 { assert h.time[k] == h.time[11..13][k - 11]; }
        else if 14 <= k < 16 { assert h.time[k] == h.time[14..16][k - 14]; }
        else if 17 <= k { assert h.time[k] == h.time[17..19][k - 17]; }
      }
    }
    assert '\n' !in h.uid by {
      forall k | 0 <= k < |h.uid| ensures h.uid[k] != '\n' { assert IsDigit(h.uid[k]); }
    }
    if h.group.Some? {
      assert HeaderText(h) == h.time + " " + h.user + Sep + h.group.value + Sep + h.uid;
    } else {
      assert HeaderText(h) == h.time + " " + h.user + Sep + h.uid;
    }
  }

  /** The trailing digit run of `r`, when `r` ends with a separator and the digits `uid`. */
  lemma TrailingDigitsAfterSep(r: string, uid: string)
    requires IsDigits(uid) && |r| >= |uid| + 3 && r[|r| - |uid| - 3..] == Sep + uid
    ensures TrailingDigits(r) == |uid|
  {
    TrailingDigitsRun(r, |uid|);
  }

  lemma {:induction false} TrailingDigitsRun(r: string, n: nat)
    requires n < |r| && !IsDigit(r[|r| - n - 1])
    requires forall j :: |r| - n <= j < |r| ==> IsDigit(r[j])
    ensures TrailingDigits(r) == n
    decreases n
  {
    if n > 0 {
      var s := r[..|r| - 1];
      assert s[|s| - (n - 1) - 1] == r[|r| - n - 1];
      forall j | |s| - (n - 1) <= j < |s| ensures IsDigit(s[j]) {
        assert s[j] == r[j];
      }
      TrailingDigitsRun(s, n - 1);
    }
  }
}
