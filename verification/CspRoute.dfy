/** The route under which a browser report is counted (_route in app/services/csp_report.py). */
module CspRoute {
  import opened Common

  // ----- the two substitutions -----

  predicate Hex(c: char) {
    '0' <= c <= '9' || 'a' <= c <= 'f' || 'A' <= c <= 'F'
  }

  predicate UuidChar(c: char, i: nat) {
    if i == 8 || i == 13 || i == 18 || i == 23 then c == '-' else Hex(c)
  }

  /** `s` starts with 8-4-4-4-12 hexadecimal digits. */
  predicate StartsWithUuid(s: string) {
    |s| >= 36 && forall i :: 0 <= i < 36 ==> UuidChar(s[i], i)
  }

  /** re.sub replaces the leftmost match and goes on behind it. */
  function SubUuid(s: string): string {
    if s == "" then ""
    else if StartsWithUuid(s) then ":id" + SubUuid(s[36..])
    else [s[0]] + SubUuid(s[1..])
  }

  /** `wide` are the decimal digits outside ASCII, which \d matches too. */
  predicate IsDigit(c: char, wide: set<char>) {
    '0' <= c <= '9' || c in wide
  }

  predicate Wide(wide: set<char>) {
    forall c :: c in wide ==> c as int >= 128
  }

  function DigitRun(s: string, wide: set<char>): (n: nat)
    ensures n <= |s| && forall i :: 0 <= i < n ==> IsDigit(s[i], wide)
    ensures n < |s| ==> !IsDigit(s[n], wide)
  {
    if s == "" || !IsDigit(s[0], wide) then 0 else 1 + DigitRun(s[1..], wide)
  }

  /** A run of five digits or more goes as a whole. */
  function SubLong(s: string, wide: set<char>): string {
    if s == "" then ""
    else if DigitRun(s, wide) >= 5 then ":id" + SubLong(s[DigitRun(s, wide)..], wide)
    else [s[0]] + SubLong(s[1..], wide)
  }

  function Collapse(s: string, wide: set<char>): string {
    SubLong(SubUuid(s), wide)
  }

  lemma {:induction false} CopiedUntilColon(s: string, k: nat)
    requires k <= |SubUuid(s)| && forall i :: 0 <= i < k ==> SubUuid(s)[i] != ':'
    ensures k <= |s| && SubUuid(s)[..k] == s[..k]
    ensures forall j :: 0 <= j < k ==> !StartsWithUuid(s[j..])
  {
    if k > 0 {
      assert SubUuid(s)[0] != ':';
      assert SubUuid(s)[1..] == SubUuid(s[1..]);
      CopiedUntilColon(s[1..], k - 1);
      forall j | 0 <= j < k ensures !StartsWithUuid(s[j..]) {
        if j == 0 {
          assert s[0..] == s;
        } else {
          assert s[j..] == s[1..][j - 1..];
        }
      }
    }
  }

  lemma {:induction false} CopiedPlain(s: string, k: nat)
    requires k <= |s| && forall j :: 0 <= j < k ==> !StartsWithUuid(s[j..])
    ensures k <= |SubUuid(s)| && SubUuid(s)[..k] == s[..k]
  {
    if k > 0 {
      assert s[0..] == s;
      forall j | 0 <= j < k - 1 ensures !StartsWithUuid(s[1..][j..]) {
        assert s[1..][j..] == s[j + 1..];
      }
      CopiedPlain(s[1..], k - 1);
    }
  }

  /** The text is what follows the first digit of a UUID, and no UUID starts before that one ends. */
  predicate HalfUuid(s: string) {
    StartsWithUuid("d" + s) && forall j :: 0 <= j < 35 ==> !StartsWithUuid(s[j..])
  }

  /** No UUID that is replaced is followed by half of another one. */
  predicate NoHalfUuid(s: string)
    decreases |s|
  {
    if s == "" then true
    else if StartsWithUuid(s) then !HalfUuid(s[36..]) && NoHalfUuid(s[36..])
    else NoHalfUuid(s[1..])
  }

  ghost predicate HasUuid(s: string) {
    exists i :: 0 <= i <= |s| && StartsWithUuid(s[i..])
  }

  lemma ConsHasUuid(c: char, s: string)
    ensures HasUuid([c] + s) <==> StartsWithUuid([c] + s) || HasUuid(s)
  {
    var t := [c] + s;
    assert t[0..] == t;
    if HasUuid(t) && !StartsWithUuid(t) {
      var i :| 0 <= i <= |t| && StartsWithUuid(t[i..]);
      assert t[1..] == s && t[i..] == t[1..][i - 1..];
    }
    if HasUuid(s) {
      var i :| 0 <= i <= |s| && StartsWithUuid(s[i..]);
      assert t[1..] == s && t[i + 1..] == t[1..][i..];
    }
  }

  lemma NoUuidBehindColonI(s: string)
    ensures !StartsWithUuid([':'] + s) && !StartsWithUuid(['i'] + s)
  {
    assert ([':'] + s)[0] == ':' && (['i'] + s)[0] == 'i';
  }

  /** A text that was not replaced does not become a UUID by what is replaced behind its first character. */
  lemma StaysNoUuid(s: string)
    requires !StartsWithUuid(s)
    ensures !StartsWithUuid(SubUuid(s))
  {
    var r := SubUuid(s);
    if StartsWithUuid(r) {
      forall i | 0 <= i < 36 ensures r[i] != ':' {
        assert UuidChar(r[i], i);
      }
      CopiedUntilColon(s, 36);
      forall i | 0 <= i < 36 ensures UuidChar(s[i], i) {
        assert s[i] == s[..36][i] == r[..36][i] == r[i];
      }
    }
  }

  lemma HalfIsCopied(s: string)
    ensures StartsWithUuid("d" + SubUuid(s)) <==> HalfUuid(s)
  {
    var t, r := "d" + s, "d" + SubUuid(s);
    if StartsWithUuid(r) {
      forall i | 0 <= i < 35 ensures SubUuid(s)[i] != ':' {
        assert SubUuid(s)[i] == r[i + 1] && UuidChar(r[i + 1], i + 1);
      }
      CopiedUntilColon(s, 35);
      forall i | 0 <= i < 36 ensures UuidChar(t[i], i) {
        if i > 0 {
          assert t[i] == s[..35][i - 1] == SubUuid(s)[..35][i - 1] == r[i];
        }
      }
    }
    if HalfUuid(s) {
      CopiedPlain(s, 35);
      forall i | 0 <= i < 36 ensures UuidChar(r[i], i) {
        if i > 0 {
          assert r[i] == SubUuid(s)[..35][i - 1] == s[..35][i - 1] == t[i];
        }
      }
    }
  }

  /** The substitution leaves no UUID, except where a replaced one was followed by the rest of another: the 'd'
      of ":id" is a hexadecimal digit. */
  lemma {:induction false} LeavesNoUuid(s: string)
    ensures HasUuid(SubUuid(s)) <==> !NoHalfUuid(s)
    decreases |s|
  {
    if s == "" {
      assert SubUuid(s) == "";
    } else if StartsWithUuid(s) {
      var rest := SubUuid(s[36..]);
      LeavesNoUuid(s[36..]);
      HalfIsCopied(s[36..]);
      assert SubUuid(s) == [':'] + (['i'] + (['d'] + rest));
      ConsHasUuid('d', rest);
      ConsHasUuid('i', ['d'] + rest);
      ConsHasUuid(':', ['i'] + (['d'] + rest));
      NoUuidBehindColonI(['d'] + rest);
      NoUuidBehindColonI(['i'] + (['d'] + rest));
    } else {
      LeavesNoUuid(s[1..]);
      StaysNoUuid(s);
      ConsHasUuid(s[0], SubUuid(s[1..]));
    }
  }

  ghost predicate HasLongNumber(s: string, wide: set<char>) {
    exists i :: 0 <= i <= |s| && DigitRun(s[i..], wide) >= 5
  }

  lemma ConsHasLong(c: char, s: string, wide: set<char>)
    ensures HasLongNumber([c] + s, wide) <==> DigitRun([c] + s, wide) >= 5 || HasLongNumber(s, wide)
  {
    var t := [c] + s;
    assert t[0..] == t;
    if HasLongNumber(t, wide) && DigitRun(t, wide) < 5 {
      var i :| 0 <= i <= |t| && DigitRun(t[i..], wide) >= 5;
      assert t[1..] == s && t[i..] == t[1..][i - 1..];
    }
    if HasLongNumber(s, wide) {
      var i :| 0 <= i <= |s| && DigitRun(s[i..], wide) >= 5;
      assert t[1..] == s && t[i + 1..] == t[1..][i..];
    }
  }

  lemma NoDigitInId(s: string, wide: set<char>)
    requires Wide(wide) && !HasLongNumber(s, wide)
    ensures !HasLongNumber(":id" + s, wide)
  {
    var t := ['d'] + s;
    ConsHasLong('d', s, wide);
    ConsHasLong('i', t, wide);
    ConsHasLong(':', ['i'] + t, wide);
    assert ":id" + s == [':'] + (['i'] + t);
  }

  lemma {:induction false} ShortRunIsKept(s: string, wide: set<char>)
    requires Wide(wide) && DigitRun(s, wide) < 5
    ensures DigitRun(SubLong(s, wide), wide) == DigitRun(s, wide)
  {
    if s != "" {
      var r := SubLong(s, wide);
      assert r[1..] == SubLong(s[1..], wide);
      if IsDigit(s[0], wide) {
        ShortRunIsKept(s[1..], wide);
      }
    }
  }

  /** After the second substitution no run of five digits is left. */
  lemma {:induction false} LeavesNoLongNumber(s: string, wide: set<char>)
    requires Wide(wide)
    ensures !HasLongNumber(SubLong(s, wide), wide)
    decreases |s|
  {
    var n := DigitRun(s, wide);
    if s == "" {
      assert SubLong(s, wide) == "";
    } else if n >= 5 {
      var rest := SubLong(s[n..], wide);
      LeavesNoLongNumber(s[n..], wide);
      NoDigitInId(rest, wide);
    } else {
      LeavesNoLongNumber(s[1..], wide);
      ShortRunIsKept(s, wide);
      ConsHasLong(s[0], SubLong(s[1..], wide), wide);
    }
  }

  // ----- segments -----

  function Split(s: string): (r: seq<string>)
    ensures r != []
  {
    if s == "" then [""]
    else
      var rest := Split(s[1..]);
      if s[0] == '/' then [""] + rest else [[s[0]] + rest[0]] + rest[1..]
  }

  function NonEmpty(xs: seq<string>): seq<string> {
    if xs == [] then [] else (if xs[0] == "" then [] else [xs[0]]) + NonEmpty(xs[1..])
  }

  function Segments(s: string): seq<string> {
    NonEmpty(Split(s))
  }

  function Join(xs: seq<string>): string
    requires xs != []
  {
    if |xs| == 1 then xs[0] else xs[0] + "/" + Join(xs[1..])
  }

  predicate NoSlash(s: string) {
    forall i :: 0 <= i < |s| ==> s[i] != '/'
  }

  /** Splitting loses nothing, and no part holds a separator. */
  lemma {:induction false} JoinUndoesSplit(s: string)
    ensures Join(Split(s)) == s
    ensures forall i :: 0 <= i < |Split(s)| ==> NoSlash(Split(s)[i])
  {
    if s != "" {
      JoinUndoesSplit(s[1..]);
      var rest := Split(s[1..]);
      if s[0] == '/' {
        assert ([""] + rest)[1..] == rest;
      } else {
        JoinLonger(s[0], rest);
        NoSlashLonger(s[0], rest);
      }
    }
  }

  lemma NoSlashLonger(c: char, xs: seq<string>)
    requires c != '/' && xs != [] && forall i :: 0 <= i < |xs| ==> NoSlash(xs[i])
    ensures var ys := [[c] + xs[0]] + xs[1..]; forall i :: 0 <= i < |ys| ==> NoSlash(ys[i])
  {
  }

  lemma JoinLonger(c: char, xs: seq<string>)
    requires xs != []
    ensures Join([[c] + xs[0]] + xs[1..]) == [c] + Join(xs)
  {
  }

  lemma {:induction false} SplitAtSlash(a: string, b: string)
    requires NoSlash(a)
    ensures Split(a + "/" + b) == [a] + Split(b)
  {
    var s := a + "/" + b;
    if a == "" {
      assert s[1..] == b;
    } else {
      assert s[1..] == a[1..] + "/" + b && [a[0]] + a[1..] == a;
      SplitAtSlash(a[1..], b);
    }
  }

  lemma {:induction false} SplitPlain(a: string)
    requires NoSlash(a)
    ensures Split(a) == [a]
  {
    if a != "" {
      SplitPlain(a[1..]);
      assert [a[0]] + a[1..] == a;
    }
  }

  ghost predicate Parts(xs: seq<string>) {
    forall i :: 0 <= i < |xs| ==> xs[i] != "" && NoSlash(xs[i])
  }

  /** Splitting undoes joining parts, behind a leading slash or not. */
  lemma {:induction false} SplitUndoesJoin(xs: seq<string>)
    requires xs != [] && Parts(xs)
    ensures Segments(Join(xs)) == xs && Segments("/" + Join(xs)) == xs
  {
    var j := Join(xs);
    if |xs| == 1 {
      SplitPlain(j);
      assert NonEmpty([j]) == [j] + NonEmpty([j][1..]);
    } else {
      SplitUndoesJoin(xs[1..]);
      SplitAtSlash(xs[0], Join(xs[1..]));
      assert Split(j)[1..] == Split(Join(xs[1..]));
    }
    SplitAtSlash("", j);
    assert "" + "/" + j == "/" + j;
    assert ([""] + Split(j))[1..] == Split(j);
  }

  // ----- routes -----

  const ROUTE_NAMES: seq<string> := [
    "events", "clubs", "login", "register", "profile", "support", "chat", "chats", "privacy", "terms", "auth",
    "quizzes", "randomizer", "admin", "search", "books"]

  const ROUTES: set<string> := Elements(ROUTE_NAMES)

  const SUBROUTE_NAMES: seq<string> := ["new", "create", "edit", "settings", "join", ":id"]

  const SUBROUTES: set<string> := Elements(SUBROUTE_NAMES)

  function Kept(segments: seq<string>): (kept: seq<string>)
    requires segments != []
    ensures kept != []
  {
    [segments[0]]
    + (if |segments| > 1 then [if segments[1] in SUBROUTES then segments[1] else ":x"] else [])
    + (if |segments| > 2 then ["*"] else [])
  }

  function Route(path: string, wide: set<char>): string {
    var segments := Segments(Collapse(path, wide));
    if segments == [] then "/"
    else if segments[0] !in ROUTES then "/other"
    else "/" + Join(Kept(segments))
  }

  // ----- the image of Route -----

  predicate KeptList(kept: seq<string>) {
    && 1 <= |kept| <= 3
    && kept[0] in ROUTES
    && (|kept| > 1 ==> kept[1] in SUBROUTES + {":x"})
    && (|kept| > 2 ==> kept[2] == "*")
  }

  ghost predicate IsRoute(r: string) {
    r == "/" || r == "/other" || exists kept :: KeptList(kept) && r == "/" + Join(kept)
  }

  predicate Plain(s: string) {
    0 < |s| <= 10 && forall i :: 0 <= i < |s| ==> s[i] == ':' || s[i] == '*' || 'a' <= s[i] <= 'z'
  }

  lemma RouteNamesArePlain()
    ensures forall i :: 0 <= i < |ROUTE_NAMES| ==> Plain(ROUTE_NAMES[i])
  {
  }

  lemma SubrouteNamesArePlain()
    ensures forall i :: 0 <= i < |SUBROUTE_NAMES| ==> Plain(SUBROUTE_NAMES[i])
  {
  }

  lemma NamesArePlain()
    ensures forall s :: s in ROUTES + SUBROUTES + {":x", "*"} ==> Plain(s)
  {
    RouteNamesArePlain();
    SubrouteNamesArePlain();
  }

  lemma {:induction false} CollapseIdentity(s: string, wide: set<char>)
    requires Wide(wide) && |s| < 36 && Unchanging(s)
    ensures Collapse(s, wide) == s && SubUuid(s) == s
  {
    if s != "" {
      CollapseIdentity(s[1..], wide);
    }
  }

  predicate Unchanging(s: string) {
    forall i :: 0 <= i < |s| ==> s[i] as int < 128 && !('0' <= s[i] <= '9')
  }

  lemma {:induction false} JoinOfPlain(xs: seq<string>)
    requires xs != [] && forall i :: 0 <= i < |xs| ==> Plain(xs[i])
    ensures |Join(xs)| < 11 * |xs| && Unchanging(Join(xs))
  {
    if |xs| > 1 {
      JoinOfPlain(xs[1..]);
    }
  }

  lemma RouteKeepsKept(kept: seq<string>, wide: set<char>)
    requires Wide(wide) && KeptList(kept)
    ensures Route("/" + Join(kept), wide) == "/" + Join(kept)
  {
    NamesArePlain();
    assert forall i :: 0 <= i < |kept| ==> Plain(kept[i]);
    JoinOfPlain(kept);
    CollapseIdentity("/" + Join(kept), wide);
    PlainParts(kept);
    SplitUndoesJoin(kept);
    KeptIsKept(kept);
  }

  lemma PlainParts(xs: seq<string>)
    requires forall i :: 0 <= i < |xs| ==> Plain(xs[i])
    ensures Parts(xs)
  {
  }

  lemma KeptIsKept(kept: seq<string>)
    requires KeptList(kept)
    ensures Kept(kept) == kept
  {
  }

  lemma RouteIsRoute(path: string, wide: set<char>)
    ensures IsRoute(Route(path, wide))
  {
  }

  lemma SlashIsFixed(wide: set<char>)
    requires Wide(wide)
    ensures Route("/", wide) == "/"
  {
    CollapseIdentity("/", wide);
    SplitAtSlash("", "");
    assert "" + "/" + "" == "/";
    assert Segments("/") == NonEmpty(["", ""]) == NonEmpty([""]);
  }

  lemma OtherIsFixed(wide: set<char>)
    requires Wide(wide)
    ensures Route("/other", wide) == "/other"
  {
    CollapseIdentity("/other", wide);
    SplitUndoesJoin(["other"]);
    assert "/" + Join(["other"]) == "/other";
  }

  /** Every result is one of the fixed routes, and each of these is its own route. */
  lemma RouteImage(path: string, wide: set<char>)
    requires Wide(wide)
    ensures IsRoute(Route(path, wide))
    ensures IsRoute(path) <==> Route(path, wide) == path
  {
    RouteIsRoute(path, wide);
    SlashIsFixed(wide);
    OtherIsFixed(wide);
    if IsRoute(path) && path != "/" && path != "/other" {
      var kept :| KeptList(kept) && path == "/" + Join(kept);
      RouteKeepsKept(kept, wide);
    }
  }

  lemma RouteIdempotent(path: string, wide: set<char>)
    requires Wide(wide)
    ensures Route(Route(path, wide), wide) == Route(path, wide)
  {
    RouteIsRoute(path, wide);
    RouteImage(Route(path, wide), wide);
  }

  // ----- paths without ids -----

  lemma {:induction false} NoUuidKept(s: string)
    requires !HasUuid(s)
    ensures SubUuid(s) == s
  {
    if s != "" {
      assert s == [s[0]] + s[1..];
      ConsHasUuid(s[0], s[1..]);
      NoUuidKept(s[1..]);
    }
  }

  lemma {:induction false} NoLongNumberKept(s: string, wide: set<char>)
    requires !HasLongNumber(s, wide)
    ensures SubLong(s, wide) == s
  {
    if s != "" {
      assert s == [s[0]] + s[1..];
      ConsHasLong(s[0], s[1..], wide);
      NoLongNumberKept(s[1..], wide);
    }
  }

  /** The first segment, the second if it is a known subroute, and one mark for the rest. */
  function Counted(xs: seq<string>): string
    requires xs != []
  {
    if xs[0] !in ROUTES then "/other"
    else if |xs| == 1 then "/" + xs[0]
    else "/" + xs[0] + "/" + (if xs[1] in SUBROUTES then xs[1] else ":x") + if |xs| > 2 then "/*" else ""
  }

  lemma KeptIsCounted(xs: seq<string>)
    requires xs != [] && xs[0] in ROUTES
    ensures "/" + Join(Kept(xs)) == Counted(xs)
  {
    if |xs| > 1 {
      var second := if xs[1] in SUBROUTES then xs[1] else ":x";
      JoinSecond(xs[0], second, |xs| > 2);
      assert Kept(xs) == [xs[0], second] + if |xs| > 2 then ["*"] else [];
    }
  }

  lemma RouteOfSegments(path: string, wide: set<char>)
    requires !HasUuid(path) && !HasLongNumber(path, wide) && Segments(path) != []
    ensures Route(path, wide) == Counted(Segments(path))
  {
    NoUuidKept(path);
    NoLongNumberKept(path, wide);
    if Segments(path)[0] in ROUTES { KeptIsCounted(Segments(path)); }
  }

  /** A path of segments without ids is counted under its first segment, if that is a known route, its second, if that
      is a known subroute, and one mark for the rest. */
  lemma RouteByParts(xs: seq<string>, wide: set<char>)
    requires xs != [] && Parts(xs)
    requires !HasUuid("/" + Join(xs)) && !HasLongNumber("/" + Join(xs), wide)
    ensures Route("/" + Join(xs), wide) == Counted(xs)
  {
    SplitUndoesJoin(xs);
    RouteOfSegments("/" + Join(xs), wide);
  }

  lemma JoinSecond(r: string, second: string, more: bool)
    ensures "/" + Join([r, second] + if more then ["*"] else []) == "/" + r + "/" + second + if more then "/*" else ""
  {
    var kept := [r, second] + if more then ["*"] else [];
    assert Join(kept) == r + "/" + Join(kept[1..]);
    if more {
      assert kept[1..] == [second, "*"] && kept[1..][1..] == ["*"];
      assert Join(kept[1..]) == second + "/" + "*";
      assert "/" + (r + "/" + (second + "/" + "*")) == "/" + r + "/" + second + "/*";
    } else {
      assert kept[1..] == [second];
      assert "/" + (r + "/" + second) == "/" + r + "/" + second + "";
    }
  }

  // ----- ids in the second segment -----

  /** A segment that is a UUID, or a number of five digits or more. */
  predicate IdText(seg: string, wide: set<char>) {
    || (|seg| == 36 && StartsWithUuid(seg))
    || (|seg| >= 5 && Digits(seg, wide))
  }

  predicate Digits(s: string, wide: set<char>) {
    forall i :: 0 <= i < |s| ==> IsDigit(s[i], wide)
  }

  predicate NoDigits(s: string, wide: set<char>) {
    forall i :: 0 <= i < |s| ==> !IsDigit(s[i], wide)
  }

  predicate EmptyOrSlash(s: string) {
    s == "" || s[0] == '/'
  }

  lemma {:induction false} UuidStopsAtSlash(p: string, t: string)
    requires p == "" || (|p| <= 36 && p[|p| - 1] == '/')
    ensures SubUuid(p + t) == p + SubUuid(t)
  {
    if p == "" {
      assert p + t == t;
    } else {
      var s := p + t;
      assert !StartsWithUuid(s) by {
        assert s[|p| - 1] == '/' && !UuidChar('/', |p| - 1);
      }
      assert s[1..] == p[1..] + t;
      UuidStopsAtSlash(p[1..], t);
      assert p == [p[0]] + p[1..];
    }
  }

  lemma {:induction false} UuidSkipsNumber(seg: string, rest: string, wide: set<char>)
    requires Wide(wide) && Digits(seg, wide) && EmptyOrSlash(rest)
    ensures SubUuid(seg + rest) == seg + SubUuid(rest)
  {
    if seg == "" {
      assert seg + rest == rest;
    } else {
      var s := seg + rest;
      assert !StartsWithUuid(s) by {
        if |seg| > 8 {
          assert s[8] == seg[8] && IsDigit(seg[8], wide) && !UuidChar(s[8], 8);
        } else if rest != "" {
          assert s[|seg|] == '/' && !UuidChar('/', |seg|);
        }
      }
      assert s[1..] == seg[1..] + rest;
      UuidSkipsNumber(seg[1..], rest, wide);
      assert seg == [seg[0]] + seg[1..];
    }
  }

  lemma {:induction false} LongSkipsText(p: string, t: string, wide: set<char>)
    requires NoDigits(p, wide)
    ensures SubLong(p + t, wide) == p + SubLong(t, wide)
  {
    if p == "" {
      assert p + t == t;
    } else {
      assert (p + t)[0] == p[0] && (p + t)[1..] == p[1..] + t;
      LongSkipsText(p[1..], t, wide);
      assert p == [p[0]] + p[1..];
    }
  }

  lemma {:induction false} RunOf(seg: string, rest: string, wide: set<char>)
    requires Wide(wide) && Digits(seg, wide) && EmptyOrSlash(rest)
    ensures DigitRun(seg + rest, wide) == |seg|
  {
    if seg == "" {
      assert seg + rest == rest;
    } else {
      assert (seg + rest)[0] == seg[0] && (seg + rest)[1..] == seg[1..] + rest;
      RunOf(seg[1..], rest, wide);
    }
  }

  predicate AllSlash(s: string) {
    forall i :: 0 <= i < |s| ==> s[i] == '/'
  }

  lemma ConsAllSlash(c: char, s: string)
    ensures AllSlash([c] + s) <==> c == '/' && AllSlash(s)
  {
    var t := [c] + s;
    if AllSlash(t) {
      assert t[0] == c && forall i :: 0 <= i < |s| ==> s[i] == t[i + 1];
    }
  }

  lemma {:induction false} SubUuidSlashes(s: string)
    ensures AllSlash(SubUuid(s)) <==> AllSlash(s)
    ensures EmptyOrSlash(s) ==> EmptyOrSlash(SubUuid(s))
    decreases |s|
  {
    if s != "" {
      if StartsWithUuid(s) {
        assert SubUuid(s)[0] == ':' && UuidChar(s[0], 0);
      } else {
        SubUuidSlashes(s[1..]);
        ConsAllSlash(s[0], SubUuid(s[1..]));
        ConsAllSlash(s[0], s[1..]);
        assert s == [s[0]] + s[1..];
      }
    }
  }

  lemma {:induction false} SubLongSlashes(s: string, wide: set<char>)
    requires Wide(wide)
    ensures AllSlash(SubLong(s, wide)) <==> AllSlash(s)
    ensures EmptyOrSlash(s) ==> EmptyOrSlash(SubLong(s, wide))
    decreases |s|
  {
    if s != "" {
      if DigitRun(s, wide) >= 5 {
        assert SubLong(s, wide)[0] == ':' && IsDigit(s[0], wide);
      } else {
        SubLongSlashes(s[1..], wide);
        ConsAllSlash(s[0], SubLong(s[1..], wide));
        ConsAllSlash(s[0], s[1..]);
        assert s == [s[0]] + s[1..];
      }
    }
  }

  lemma {:induction false} NoSegments(s: string)
    ensures Segments(s) == [] <==> AllSlash(s)
    decreases |s|
  {
    if s != "" {
      var rest := Split(s[1..]);
      NoSegments(s[1..]);
      ConsAllSlash(s[0], s[1..]);
      assert s == [s[0]] + s[1..];
      if s[0] == '/' {
        assert Split(s)[1..] == rest;
      } else {
        assert Split(s)[0] != "";
      }
    }
  }

  lemma CollapsedNumber(p: string, seg: string, rest: string, wide: set<char>)
    requires Wide(wide) && p != "" && |p| <= 36 && p[|p| - 1] == '/' && NoDigits(p, wide)
    requires |seg| >= 5 && Digits(seg, wide) && EmptyOrSlash(rest)
    ensures Collapse(p + (seg + rest), wide) == p + (":id" + Collapse(rest, wide))
  {
    var after := SubUuid(rest);
    UuidStopsAtSlash(p, seg + rest);
    SubUuidSlashes(rest);
    UuidSkipsNumber(seg, rest, wide);
    LongSkipsText(p, seg + after, wide);
    RunOf(seg, after, wide);
    assert (seg + after)[|seg|..] == after;
  }

  lemma CollapsedUuid(p: string, seg: string, rest: string, wide: set<char>)
    requires Wide(wide) && p != "" && |p| <= 36 && p[|p| - 1] == '/' && NoDigits(p, wide)
    requires |seg| == 36 && StartsWithUuid(seg)
    ensures Collapse(p + (seg + rest), wide) == p + (":id" + Collapse(rest, wide))
  {
    var s := seg + rest;
    UuidStopsAtSlash(p, s);
    assert StartsWithUuid(s) by {
      assert forall i :: 0 <= i < 36 ==> s[i] == seg[i];
    }
    assert s[36..] == rest;
    LongSkipsText(p, ":id" + SubUuid(rest), wide);
    LongSkipsText(":id", SubUuid(rest), wide);
  }

  /** What the substitutions make of a path whose second segment is an id. */
  lemma CollapsedId(r: string, seg: string, rest: string, wide: set<char>)
    requires Wide(wide) && Plain(r) && IdText(seg, wide) && EmptyOrSlash(rest)
    ensures Collapse("/" + r + "/" + seg + rest, wide) == "/" + r + "/" + ":id" + Collapse(rest, wide)
  {
    var p := "/" + r + "/";
    assert p + seg + rest == p + (seg + rest);
    assert p + ":id" + Collapse(rest, wide) == p + (":id" + Collapse(rest, wide));
    if |seg| >= 5 && Digits(seg, wide) {
      CollapsedNumber(p, seg, rest, wide);
    } else {
      CollapsedUuid(p, seg, rest, wide);
    }
  }

  /** The segments of a path with two known parts in front. */
  lemma SegmentsBehind(r: string, t: string, rest: string)
    requires r != "" && t != "" && NoSlash(r) && NoSlash(t) && EmptyOrSlash(rest)
    ensures Segments("/" + r + "/" + t + rest) == [r, t] + Segments(rest)
  {
    if rest == "" {
      assert Join([r, t]) == r + "/" + t;
      assert "/" + r + "/" + t + rest == "/" + Join([r, t]);
      SplitUndoesJoin([r, t]);
      assert Segments("") == [];
    } else {
      var b := rest[1..];
      assert rest == "" + "/" + b;
      assert "/" + r + "/" + t + rest == "" + "/" + (r + "/" + (t + "/" + b));
      SplitBehind(r, t, b);
      SplitAtSlash("", b);
      ThreeInFront(r, t, Split(b));
    }
  }

  lemma SplitBehind(r: string, t: string, b: string)
    requires NoSlash(r) && NoSlash(t)
    ensures Split("" + "/" + (r + "/" + (t + "/" + b))) == [""] + ([r] + ([t] + Split(b)))
  {
    SplitAtSlash(t, b);
    SplitAtSlash(r, t + "/" + b);
    SplitAtSlash("", r + "/" + (t + "/" + b));
  }

  lemma ThreeInFront(r: string, t: string, xs: seq<string>)
    requires r != "" && t != ""
    ensures NonEmpty([""] + ([r] + ([t] + xs))) == [r, t] + NonEmpty([""] + xs)
  {
    Unfold("", [r] + ([t] + xs));
    Unfold(r, [t] + xs);
    Unfold(t, xs);
    Unfold("", xs);
  }

  lemma Unfold(x: string, xs: seq<string>)
    ensures NonEmpty([x] + xs) == (if x == "" then [] else [x]) + NonEmpty(xs)
  {
  }

  lemma JoinKept(r: string, more: seq<string>)
    requires r in ROUTES
    ensures "/" + Join(Kept([r, ":id"] + more)) == "/" + r + "/:id" + if more == [] then "" else "/*"
  {
    var kept := Kept([r, ":id"] + more);
    assert kept[0] == r && kept[1] == ":id";
    assert Join(kept) == r + "/" + Join(kept[1..]);
    if more == [] {
      assert kept[1..] == [":id"];
      assert "/" + (r + "/" + ":id") == "/" + r + "/:id" + "";
    } else {
      assert kept[1..] == [":id", "*"] && kept[1..][1..] == ["*"];
      assert Join(kept[1..]) == ":id" + "/" + "*";
      assert "/" + (r + "/" + (":id" + "/" + "*")) == "/" + r + "/:id" + "/*";
    }
  }

  /** Every path with an id behind a known route is counted under one route, whatever the id, and with one mark
      for whatever follows it. */
  lemma IdsShareOneRoute(r: string, seg: string, rest: string, wide: set<char>)
    requires Wide(wide) && r in ROUTES && IdText(seg, wide) && EmptyOrSlash(rest)
    ensures Route("/" + r + "/" + seg + rest, wide) == "/" + r + "/:id" + if AllSlash(rest) then "" else "/*"
  {
    var after := Collapse(rest, wide);
    NamesArePlain();
    assert Plain(r);
    CollapsedId(r, seg, rest, wide);
    SubUuidSlashes(rest);
    SubLongSlashes(SubUuid(rest), wide);
    SegmentsBehind(r, ":id", after);
    NoSegments(after);
    JoinKept(r, Segments(after));
  }

  // ----- how many routes there are -----

  const SECOND_SEGMENTS: set<string> := SUBROUTES + {":x"}

  function OneSegment(r: string): string { "/" + r }

  function TwoSegments(p: (string, string)): string { "/" + (p.0 + "/" + p.1) }

  function MoreSegments(p: (string, string)): string { "/" + (p.0 + "/" + (p.1 + "/" + "*")) }

  ghost function RouteSet(): set<string> {
    var pairs := Pairs(ROUTES, SECOND_SEGMENTS);
    {"/", "/other"} + Image(ROUTES, OneSegment) + Image(pairs, TwoSegments) + Image(pairs, MoreSegments)
  }

  lemma JoinShort(kept: seq<string>)
    requires 1 <= |kept| <= 3 && (|kept| == 3 ==> kept[2] == "*")
    ensures |kept| == 1 ==> "/" + Join(kept) == OneSegment(kept[0])
    ensures |kept| == 2 ==> "/" + Join(kept) == TwoSegments((kept[0], kept[1]))
    ensures |kept| == 3 ==> "/" + Join(kept) == MoreSegments((kept[0], kept[1]))
  {
  }

  lemma RoutesAreFinite(r: string)
    requires IsRoute(r)
    ensures r in RouteSet()
  {
    if r != "/" && r != "/other" {
      var kept :| KeptList(kept) && r == "/" + Join(kept);
      JoinShort(kept);
      assert |kept| > 1 ==> (kept[0], kept[1]) in Pairs(ROUTES, SECOND_SEGMENTS);
    }
  }

  lemma NameCounts()
    ensures |ROUTES| <= 16 && |SECOND_SEGMENTS| <= 7
  {
    ElementsSize(ROUTE_NAMES);
    ElementsSize(SUBROUTE_NAMES);
  }

  /** There are at most 242 routes. */
  lemma RouteSetSize()
    ensures |RouteSet()| <= 242
  {
    var pairs := Pairs(ROUTES, SECOND_SEGMENTS);
    NameCounts();
    PairsSize(ROUTES, SECOND_SEGMENTS);
    AtMostProduct(|ROUTES|, |SECOND_SEGMENTS|);
    ImageSize(ROUTES, OneSegment);
    ImageSize(pairs, TwoSegments);
    ImageSize(pairs, MoreSegments);
  }

  lemma AtMostProduct(a: nat, b: nat)
    requires a <= 16 && b <= 7
    ensures a * b <= 112
  {
  }
}
