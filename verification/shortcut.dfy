/**
  The shortcut-string validator of the options page.

  `validate` accepts a candidate iff it matches one of three anchored regular
  expressions: a modifier, an optional `Shift`, and a key; an optional modifier,
  an optional `Shift`, and a function key F1-F12; or a bare media key.

  No token of the first two patterns contains `+` or whitespace, so every `+` of a
  matching string is one of the patterns' `\+` separators and the `\s*` runs are
  exactly the whitespace around each separated piece. Matching those two patterns
  is therefore the same as splitting the candidate on `+`, trimming whitespace
  from each piece and checking the resulting token list; that is how they are
  written here.
*/
module Shortcut {
  import opened Wrappers

  /** The shortcut the options page falls back to. */
  const Default: string := "Ctrl+Shift+1"

  /** The code points matched by `\s` in an ECMAScript regular expression: the
      WhiteSpace and LineTerminator productions. */
  predicate IsSpace(c: char)
  {
    || c == '\t' || c == '\n' || c == '\U{0B}' || c == '\U{0C}' || c == '\r' || c == ' '
    || c == '\U{A0}' || c == '\U{1680}' || ('\U{2000}' <= c <= '\U{200A}')
    || c == '\U{2028}' || c == '\U{2029}' || c == '\U{202F}' || c == '\U{205F}'
    || c == '\U{3000}' || c == '\U{FEFF}'
  }

  predicate AllSpace(s: string)
  {
    forall i :: 0 <= i < |s| ==> IsSpace(s[i])
  }

  /** A token with no whitespace at either end. */
  predicate Solid(s: string)
  {
    |s| > 0 && !IsSpace(s[0]) && !IsSpace(s[|s| - 1])
  }

  /** `s` with its leading whitespace removed. */
  function TrimStart(s: string): string
  {
    if |s| > 0 && IsSpace(s[0]) then TrimStart(s[1..]) else s
  }

  /** `s` with its trailing whitespace removed. */
  function TrimEnd(s: string): string
  {
    if |s| > 0 && IsSpace(s[|s| - 1]) then TrimEnd(s[..|s| - 1]) else s
  }

  /** TrimStart removes exactly the leading run of whitespace: what is left is a
      suffix that is empty or starts with a non-space. */
  lemma {:induction false} TrimStartSplits(s: string)
    ensures |TrimStart(s)| <= |s| && TrimStart(s) == s[|s| - |TrimStart(s)|..]
    ensures AllSpace(s[..|s| - |TrimStart(s)|])
    ensures TrimStart(s) == [] || !IsSpace(TrimStart(s)[0])
  {
    if |s| > 0 && IsSpace(s[0]) {
      TrimStartSplits(s[1..]);
      var t := TrimStart(s[1..]);
      assert s[..|s| - |t|] == [s[0]] + s[1..][..|s| - 1 - |t|];
    }
  }

  /** TrimEnd removes exactly the trailing run of whitespace: what is left is a
      prefix that is empty or ends with a non-space. */
  lemma {:induction false} TrimEndSplits(s: string)
    ensures |TrimEnd(s)| <= |s| && TrimEnd(s) == s[..|TrimEnd(s)|]
    ensures AllSpace(s[|TrimEnd(s)|..])
    ensures TrimEnd(s) == [] || !IsSpace(TrimEnd(s)[|TrimEnd(s)| - 1])
  {
    if |s| > 0 && IsSpace(s[|s| - 1]) {
      TrimEndSplits(s[..|s| - 1]);
      var t := TrimEnd(s[..|s| - 1]);
      assert s[|t|..] == s[..|s| - 1][|t|..] + [s[|s| - 1]];
    }
  }

  /** `s` with whitespace removed at both ends: what `\s*` on either side of a
      token absorbs. */
  function Trim(s: string): string
  {
    TrimEnd(TrimStart(s))
  }

  lemma {:induction false} TrimStartPadded(p: string, x: string)
    requires AllSpace(p)
    requires x == [] || !IsSpace(x[0])
    ensures TrimStart(p + x) == x
    decreases |p|
  {
    if |p| > 0 {
      assert (p + x)[1..] == p[1..] + x;
      TrimStartPadded(p[1..], x);
    } else {
      assert p + x == x;
    }
  }

  lemma {:induction false} TrimEndPadded(x: string, q: string)
    requires AllSpace(q)
    requires x == [] || !IsSpace(x[|x| - 1])
    ensures TrimEnd(x + q) == x
    decreases |q|
  {
    if |q| > 0 {
      assert (x + q)[..|x + q| - 1] == x + q[..|q| - 1];
      TrimEndPadded(x, q[..|q| - 1]);
    } else {
      assert x + q == x;
    }
  }

  /** Trimming leaves a token without surrounding whitespace alone. */
  lemma TrimSolid(x: string)
    requires Solid(x)
    ensures Trim(x) == x
  {
    assert TrimStart(x) == x;
  }

  /** Trimming recovers a token from any whitespace padding around it. */
  lemma {:induction false} TrimPadded(p: string, x: string, q: string)
    requires AllSpace(p) && AllSpace(q) && Solid(x)
    ensures Trim(p + x + q) == x
  {
    assert p + x + q == p + (x + q);
    TrimStartPadded(p, x + q);
    TrimEndPadded(x, q);
  }

  /** `s.split("+")`: the pieces between separators, in order. */
  function Pieces(s: string): (ps: seq<string>)
    ensures |ps| >= 1
    ensures forall k :: 0 <= k < |ps| ==> '+' !in ps[k]
  {
    if |s| == 0 then [""]
    else
      var rest := Pieces(s[1..]);
      if s[0] == '+' then [""] + rest
      else [[s[0]] + rest[0]] + rest[1..]
  }

  /** `ps.join("+")`. */
  function Join(ps: seq<string>): string
    requires |ps| >= 1
  {
    if |ps| == 1 then ps[0] else ps[0] + "+" + Join(ps[1..])
  }

  /** Joining the pieces of a string gives the string back. */
  lemma {:induction false} JoinPieces(s: string)
    ensures Join(Pieces(s)) == s
  {
    if |s| > 0 {
      var rest := Pieces(s[1..]);
      JoinPieces(s[1..]);
      if s[0] == '+' {
        assert Pieces(s)[1..] == rest;
      } else {
        var ps := Pieces(s);
        assert ps[1..] == rest[1..];
        if |rest| > 1 {
          assert Join(rest) == rest[0] + "+" + Join(rest[1..]);
        }
      }
    }
  }

  /** A piece without `+` glued in front of a string joins its first piece. */
  lemma {:induction false} PiecesPrefix(a: string, b: string)
    requires '+' !in a
    ensures Pieces(a + b) == [a + Pieces(b)[0]] + Pieces(b)[1..]
    decreases |a|
  {
    if |a| > 0 {
      assert (a + b)[1..] == a[1..] + b;
      PiecesPrefix(a[1..], b);
      assert [a[0]] + (a[1..] + Pieces(b)[0]) == a + Pieces(b)[0];
    } else {
      assert a + b == b;
      assert a + Pieces(b)[0] == Pieces(b)[0];
      assert Pieces(b) == [Pieces(b)[0]] + Pieces(b)[1..];
    }
  }

  /** Splitting a join of `+`-free pieces gives the pieces back. */
  lemma {:induction false} PiecesJoin(ps: seq<string>)
    requires |ps| >= 1
    requires forall k :: 0 <= k < |ps| ==> '+' !in ps[k]
    ensures Pieces(Join(ps)) == ps
    decreases |ps|
  {
    if |ps| == 1 {
      PiecesPrefix(ps[0], "");
      assert ps[0] + "" == ps[0];
    } else {
      var tail := Join(ps[1..]);
      PiecesJoin(ps[1..]);
      assert ps[0] + "+" + tail == ps[0] + ("+" + tail);
      PiecesPrefix(ps[0], "+" + tail);
      assert ("+" + tail)[1..] == tail;
      assert Pieces("+" + tail) == [""] + ps[1..];
      assert ps[0] + "" == ps[0];
    }
  }

  /** Every piece trimmed. */
  function TrimAll(ps: seq<string>): (ts: seq<string>)
    ensures |ts| == |ps|
    ensures forall k :: 0 <= k < |ps| ==> ts[k] == Trim(ps[k])
  {
    if |ps| == 0 then [] else [Trim(ps[0])] + TrimAll(ps[1..])
  }

  /** The trimmed pieces of `s`. */
  function Tokens(s: string): seq<string>
  {
    TrimAll(Pieces(s))
  }

  /** The text written before and after one token. */
  datatype Gap = Gap(before: string, after: string)

  /** Every gap is whitespace, as the patterns' `\s*` runs allow. */
  predicate Blank(gaps: seq<Gap>)
  {
    forall k :: 0 <= k < |gaps| ==> AllSpace(gaps[k].before) && AllSpace(gaps[k].after)
  }

  /** Every gap is empty. */
  predicate Tight(gaps: seq<Gap>)
  {
    forall k :: 0 <= k < |gaps| ==> gaps[k] == Gap([], [])
  }

  /** Each token with its own gap around it. */
  function Surround(ts: seq<string>, gaps: seq<Gap>): (ps: seq<string>)
    requires |gaps| == |ts|
    ensures |ps| == |ts|
    ensures forall k :: 0 <= k < |ts| ==> ps[k] == gaps[k].before + ts[k] + gaps[k].after
  {
    if |ts| == 0 then []
    else [gaps[0].before + ts[0] + gaps[0].after] + Surround(ts[1..], gaps[1..])
  }

  lemma NoPlusInSpace(p: string)
    requires AllSpace(p)
    ensures '+' !in p
  {
    assert !IsSpace('+');
    assert forall i :: 0 <= i < |p| ==> p[i] != '+';
  }

  /** Splitting and trimming undoes joining tokens, surrounded by any whitespace,
      with `+`. */
  lemma TokensOfJoin(ts: seq<string>, gaps: seq<Gap>)
    requires |ts| >= 1 && |gaps| == |ts| && Blank(gaps)
    requires forall k :: 0 <= k < |ts| ==> IsToken(ts[k])
    ensures Tokens(Join(Surround(ts, gaps))) == ts
  {
    var ps := Surround(ts, gaps);
    forall k | 0 <= k < |ts| ensures '+' !in ps[k] {
      NoPlusInSpace(gaps[k].before);
      NoPlusInSpace(gaps[k].after);
    }
    PiecesJoin(ps);
    forall k | 0 <= k < |ts| ensures Trim(ps[k]) == ts[k] {
      TrimPadded(gaps[k].before, ts[k], gaps[k].after);
    }
  }

  const Modifiers: set<string> := {"Alt", "Ctrl", "Command", "MacCtrl"}

  const NamedKeys: set<string> :=
    {"Comma", "Period", "Home", "End", "PageUp", "PageDown", "Space", "Insert", "Delete", "Up", "Down", "Left", "Right"}

  /** `F[1-9]|F1[0-2]`. */
  const FunctionKeys: set<string> :=
    {"F1", "F2", "F3", "F4", "F5", "F6", "F7", "F8", "F9", "F10", "F11", "F12"}

  const MediaKeys: set<string> := {"MediaNextTrack", "MediaPlayPause", "MediaPrevTrack", "MediaStop"}

  /** `[A-Z0-9]`: case-sensitive, as the patterns carry no `i` flag. */
  predicate IsUpperAlnum(c: char)
  {
    'A' <= c <= 'Z' || '0' <= c <= '9'
  }

  /** The key alternative of the first pattern. */
  predicate IsKey(t: string)
  {
    (|t| == 1 && IsUpperAlnum(t[0])) || t in NamedKeys
  }

  /** The three patterns of `validate`, in the order it tries them. */
  datatype Pattern = ModifierKey | FunctionKey | MediaKeyOnly

  const Patterns: seq<Pattern> := [ModifierKey, FunctionKey, MediaKeyOnly]

  /** Whether the anchored pattern `p` matches all of `s`. */
  predicate Matches(p: Pattern, s: string)
  {
    match p
    case ModifierKey => ModifierKeyTokens(Tokens(s))
    case FunctionKey => FunctionKeyTokens(Tokens(s))
    // ^(MediaNextTrack|MediaPlayPause|MediaPrevTrack|MediaStop)$
    case MediaKeyOnly => s in MediaKeys
  }

  /** ^\s*(Alt|Ctrl|Command|MacCtrl)\s*\+\s*(Shift\s*\+\s*)?(key)\s*$ on trimmed pieces. */
  predicate ModifierKeyTokens(t: seq<string>)
  {
    || (|t| == 2 && t[0] in Modifiers && IsKey(t[1]))
    || (|t| == 3 && t[0] in Modifiers && t[1] == "Shift" && IsKey(t[2]))
  }

  /** ^\s*((modifier)\s*\+\s*)?(Shift\s*\+\s*)?(F[1-9]|F1[0-2])\s*$ on trimmed pieces. */
  predicate FunctionKeyTokens(t: seq<string>)
  {
    || (|t| == 1 && t[0] in FunctionKeys)
    || (|t| == 2 && (t[0] in Modifiers || t[0] == "Shift") && t[1] in FunctionKeys)
    || (|t| == 3 && t[0] in Modifiers && t[1] == "Shift" && t[2] in FunctionKeys)
  }

  /** The candidate matches at least one of the three patterns. */
  predicate Accepts(s: string)
  {
    Matches(ModifierKey, s) || Matches(FunctionKey, s) || Matches(MediaKeyOnly, s)
  }

  lemma AcceptsSomePattern(s: string)
    ensures Accepts(s) <==> exists j :: 0 <= j < |Patterns| && Matches(Patterns[j], s)
  {
    assert Patterns[0] == ModifierKey && Patterns[1] == FunctionKey && Patterns[2] == MediaKeyOnly;
  }

  /** `validate`: try the patterns in order and accept on the first match. */
  method Validate(candidate: string) returns (ok: bool)
    ensures ok <==> Accepts(candidate)
  {
    AcceptsSomePattern(candidate);
    for i := 0 to |Patterns|
      invariant forall j :: 0 <= j < i ==> !Matches(Patterns[j], candidate)
    {
      if Matches(Patterns[i], candidate) {
        return true;
      }
    }
    return false;
  }

  /* A structured view of the shortcuts the patterns describe, used to state
     which strings `validate` accepts. */

  datatype Modifier = Alt | Ctrl | Command | MacCtrl

  datatype NamedKey =
    Comma | Period | Home | End | PageUp | PageDown | Space | Insert | Delete | Up | Down | Left | Right

  /** A single-character key; `+` and whitespace would be read as separators. */
  type KeyChar = c: char | c != '+' && !IsSpace(c) witness 'A'

  /** The number of a function key the second pattern names. */
  type FunctionNumber = n: int | 1 <= n <= 12 witness 1

  datatype Key = Char(c: KeyChar) | Named(name: NamedKey) | Function(n: FunctionNumber)

  datatype MediaKey = NextTrack | PlayPause | PrevTrack | Stop

  datatype Shortcut =
    | Combo(modifier: Option<Modifier>, shift: bool, key: Key)
    | Media(media: MediaKey)

  function ModifierName(m: Modifier): string
  {
    match m
    case Alt => "Alt"
    case Ctrl => "Ctrl"
    case Command => "Command"
    case MacCtrl => "MacCtrl"
  }

  function NamedKeyName(k: NamedKey): string
  {
    match k
    case Comma => "Comma"
    case Period => "Period"
    case Home => "Home"
    case End => "End"
    case PageUp => "PageUp"
    case PageDown => "PageDown"
    case Space => "Space"
    case Insert => "Insert"
    case Delete => "Delete"
    case Up => "Up"
    case Down => "Down"
    case Left => "Left"
    case Right => "Right"
  }

  function Digit(d: int): char
    requires 0 <= d <= 9
  {
    (d + '0' as int) as char
  }

  function KeyName(k: Key): string
  {
    match k
    case Char(c) => [c]
    case Named(name) => NamedKeyName(name)
    case Function(n) => if n <= 9 then ['F', Digit(n)] else ['F', '1', Digit(n - 10)]
  }

  function MediaKeyName(m: MediaKey): string
  {
    match m
    case NextTrack => "MediaNextTrack"
    case PlayPause => "MediaPlayPause"
    case PrevTrack => "MediaPrevTrack"
    case Stop => "MediaStop"
  }

  /** The tokens of a shortcut, in the order they are written. */
  function Parts(sc: Shortcut): (ts: seq<string>)
  {
    match sc
    case Media(m) => [MediaKeyName(m)]
    case Combo(modifier, shift, key) =>
      (if modifier.Some? then [ModifierName(modifier.value)] else [])
      + (if shift then ["Shift"] else [])
      + [KeyName(key)]
  }

  /** The shortcut written with `+` separators and `gaps[k]` around its `k`-th
      token. */
  function Render(sc: Shortcut, gaps: seq<Gap>): string
    requires |gaps| == |Parts(sc)|
  {
    Join(Surround(Parts(sc), gaps))
  }

  /** Which written shortcuts the options page should take: a character or named
      key needs a modifier and an upper-case letter or a digit; a function key
      needs nothing; a media key must stand alone with no whitespace. */
  predicate Permitted(sc: Shortcut, gaps: seq<Gap>)
  {
    match sc
    case Media(_) => Tight(gaps)
    case Combo(modifier, _, key) =>
      match key
      case Char(c) => modifier.Some? && IsUpperAlnum(c)
      case Named(_) => modifier.Some?
      case Function(_) => true
  }

  /** A solid token without `+`: what splitting and trimming gives back intact. */
  predicate IsToken(s: string)
  {
    Solid(s) && '+' !in s
  }

  lemma ModifierNameIsToken(m: Modifier)
    ensures IsToken(ModifierName(m))
  {
    match m
    case Alt =>
    case Ctrl =>
    case Command =>
    case MacCtrl =>
  }

  lemma NamedKeyNameIsToken(k: NamedKey)
    ensures IsToken(NamedKeyName(k))
  {
    match k
    case Comma =>
    case Period =>
    case Home =>
    case End =>
    case PageUp =>
    case PageDown =>
    case Space =>
    case Insert =>
    case Delete =>
    case Up =>
    case Down =>
    case Left =>
    case Right =>
  }

  lemma KeyNameIsToken(k: Key)
    ensures IsToken(KeyName(k))
  {
    match k
    case Char(c) =>
    case Named(name) => NamedKeyNameIsToken(name);
    case Function(n) =>
      var d := if n <= 9 then Digit(n) else Digit(n - 10);
      assert !IsSpace(d);
      assert KeyName(k)[|KeyName(k)| - 1] == d;
  }

  lemma MediaKeyNameIsToken(m: MediaKey)
    ensures IsToken(MediaKeyName(m))
  {
    match m
    case NextTrack =>
    case PlayPause =>
    case PrevTrack =>
    case Stop =>
  }

  /** Every part of a shortcut is a token. */
  lemma PartsAreTokens(sc: Shortcut)
    ensures |Parts(sc)| >= 1
    ensures forall k :: 0 <= k < |Parts(sc)| ==> IsToken(Parts(sc)[k])
  {
    match sc
    case Media(m) =>
      MediaKeyNameIsToken(m);
    case Combo(modifier, shift, key) =>
      KeyNameIsToken(key);
      assert IsToken("Shift");
      if modifier.Some? {
        ModifierNameIsToken(modifier.value);
      }
  }

  /** A key name is never a modifier, never `Shift` and never a media key; it is a
      function-key name exactly for function keys, and a key of the first pattern
      exactly for upper-case letters, digits and named keys. */
  lemma KeyNameClass(k: Key)
    ensures KeyName(k) !in Modifiers && KeyName(k) != "Shift" && KeyName(k) !in MediaKeys
    ensures KeyName(k) in FunctionKeys <==> k.Function?
    ensures IsKey(KeyName(k)) <==> (k.Char? && IsUpperAlnum(k.c)) || k.Named?
  {
    match k
    case Char(c) =>
    case Named(name) =>
    case Function(n) =>
      if n <= 9 {
        assert IsUpperAlnum(Digit(n));
      } else {
        assert IsUpperAlnum(Digit(n - 10));
      }
  }

  /** The token-level patterns hold of a combination's parts exactly when it is
      permitted, and never of a media key's. */
  lemma PartsMatch(sc: Shortcut)
    ensures ModifierKeyTokens(Parts(sc)) || FunctionKeyTokens(Parts(sc)) <==> sc.Combo? && Permitted(sc, [])
  {
    match sc
    case Media(m) =>
    case Combo(modifier, shift, key) =>
      KeyNameClass(key);
      if modifier.Some? {
        var name := ModifierName(modifier.value);
        assert name in Modifiers by {
          match modifier.value
          case Alt =>
          case Ctrl =>
          case Command =>
          case MacCtrl =>
        }
        if shift {
          assert Parts(sc) == [name, "Shift", KeyName(key)];
        } else {
          assert Parts(sc) == [name, KeyName(key)];
        }
      } else {
        if shift {
          assert Parts(sc) == ["Shift", KeyName(key)];
        } else {
          assert Parts(sc) == [KeyName(key)];
        }
      }
  }

  /** A media key name is a single token. */
  lemma MediaKeyTokens(s: string)
    requires s in MediaKeys
    ensures Tokens(s) == [s]
  {
    assert IsToken(s);
    assert Join([s]) == s;
    TokensOfPlainJoin([s]);
  }

  /** A written shortcut is accepted exactly when it is permitted: a complete
      description of `validate` on every shortcut the patterns name, with any
      whitespace around each token. */
  lemma {:induction false} RenderAccepted(sc: Shortcut, gaps: seq<Gap>)
    requires |gaps| == |Parts(sc)| && Blank(gaps)
    ensures Accepts(Render(sc, gaps)) <==> Permitted(sc, gaps)
  {
    var s := Render(sc, gaps);
    PartsAreTokens(sc);
    TokensOfJoin(Parts(sc), gaps);
    PartsMatch(sc);
    assert Matches(ModifierKey, s) || Matches(FunctionKey, s) <==> sc.Combo? && Permitted(sc, []);
    if sc.Media? {
      RenderMediaExact(sc.media, gaps[0]);
      assert gaps == [gaps[0]];
    } else {
      RenderComboNotMedia(sc, gaps);
    }
  }

  /** A written media key is one of the media strings only without whitespace. */
  lemma RenderMediaExact(m: MediaKey, g: Gap)
    requires AllSpace(g.before) && AllSpace(g.after)
    ensures Render(Media(m), [g]) in MediaKeys <==> g == Gap([], [])
  {
    var name := MediaKeyName(m);
    var s := g.before + name + g.after;
    assert Surround([name], [g]) == [s];
    assert Render(Media(m), [g]) == s;
    assert name in MediaKeys by {
      match m
      case NextTrack =>
      case PlayPause =>
      case PrevTrack =>
      case Stop =>
    }
    assert Solid(name);
    SolidPadded(g.before, name, g.after);
    if s in MediaKeys {
      assert Solid(s);
    }
    if g == Gap([], []) {
      assert s == name;
    }
  }

  /** Whitespace around a token leaves the ends of the text blank. */
  lemma SolidPadded(b: string, x: string, a: string)
    requires AllSpace(b) && AllSpace(a) && |x| > 0
    ensures Solid(b + x + a) ==> b == [] && a == []
  {
    var s := b + x + a;
    if |b| > 0 {
      assert s[0] == b[0];
    }
    if |a| > 0 {
      assert s[|s| - 1] == a[|a| - 1];
    }
  }

  /** A written combination is never one of the media strings. */
  lemma RenderComboNotMedia(sc: Shortcut, gaps: seq<Gap>)
    requires sc.Combo? && |gaps| == |Parts(sc)| && Blank(gaps)
    ensures Render(sc, gaps) !in MediaKeys
  {
    var s := Render(sc, gaps);
    if s in MediaKeys {
      PartsAreTokens(sc);
      TokensOfJoin(Parts(sc), gaps);
      MediaKeyTokens(s);
      KeyNameClass(sc.key);
      assert false;
    }
  }

  /* From an accepted string back to the shortcut it writes. */

  /** The whitespace that trimming removes from either end of a piece. */
  function GapOf(p: string): Gap
  {
    var u := TrimStart(p);
    TrimStartSplits(p);
    TrimEndSplits(u);
    Gap(p[..|p| - |u|], u[|TrimEnd(u)|..])
  }

  /** Every piece is its trimmed token with whitespace around it. */
  lemma PieceAround(p: string)
    ensures AllSpace(GapOf(p).before) && AllSpace(GapOf(p).after)
    ensures p == GapOf(p).before + Trim(p) + GapOf(p).after
  {
    var u := TrimStart(p);
    TrimStartSplits(p);
    var t := TrimEnd(u);
    TrimEndSplits(u);
    assert GapOf(p) == Gap(p[..|p| - |u|], u[|t|..]);
    Reassemble(p, u, t);
  }

  /** A string is what precedes its suffix `u`, then a prefix `t` of `u`, then the
      rest of `u`. */
  lemma Reassemble(p: string, u: string, t: string)
    requires |u| <= |p| && u == p[|p| - |u|..]
    requires |t| <= |u| && t == u[..|t|]
    ensures p == p[..|p| - |u|] + t + u[|t|..]
  {
    assert u == t + u[|t|..];
    assert p == p[..|p| - |u|] + u;
  }

  /** The gap of every piece. */
  function GapsOf(ps: seq<string>): (gaps: seq<Gap>)
    ensures |gaps| == |ps|
    ensures forall k :: 0 <= k < |ps| ==> gaps[k] == GapOf(ps[k])
  {
    if |ps| == 0 then [] else [GapOf(ps[0])] + GapsOf(ps[1..])
  }

  /** Putting back the gaps around the trimmed pieces gives the pieces. */
  lemma PiecesAround(ps: seq<string>)
    ensures Blank(GapsOf(ps))
    ensures Surround(TrimAll(ps), GapsOf(ps)) == ps
  {
    forall k | 0 <= k < |ps|
      ensures AllSpace(GapOf(ps[k]).before) && AllSpace(GapOf(ps[k]).after)
      ensures ps[k] == GapOf(ps[k]).before + Trim(ps[k]) + GapOf(ps[k]).after
    {
      PieceAround(ps[k]);
    }
  }

  function ModifierOf(t: string): (m: Modifier)
    requires t in Modifiers
    ensures ModifierName(m) == t
  {
    if t == "Alt" then Alt
    else if t == "Ctrl" then Ctrl
    else if t == "Command" then Command
    else MacCtrl
  }

  function NamedKeyOf(t: string): (k: NamedKey)
    requires t in NamedKeys
    ensures NamedKeyName(k) == t
  {
    if t == "Comma" then Comma
    else if t == "Period" then Period
    else if t == "Home" then Home
    else if t == "End" then End
    else if t == "PageUp" then PageUp
    else if t == "PageDown" then PageDown
    else if t == "Space" then Space
    else if t == "Insert" then Insert
    else if t == "Delete" then Delete
    else if t == "Up" then Up
    else if t == "Down" then Down
    else if t == "Left" then Left
    else Right
  }

  function FunctionNumberOf(t: string): (n: FunctionNumber)
    requires t in FunctionKeys
    ensures KeyName(Function(n)) == t
  {
    if t == "F1" then 1
    else if t == "F2" then 2
    else if t == "F3" then 3
    else if t == "F4" then 4
    else if t == "F5" then 5
    else if t == "F6" then 6
    else if t == "F7" then 7
    else if t == "F8" then 8
    else if t == "F9" then 9
    else if t == "F10" then 10
    else if t == "F11" then 11
    else 12
  }

  function MediaKeyOf(t: string): (m: MediaKey)
    requires t in MediaKeys
    ensures MediaKeyName(m) == t
  {
    if t == "MediaNextTrack" then NextTrack
    else if t == "MediaPlayPause" then PlayPause
    else if t == "MediaPrevTrack" then PrevTrack
    else Stop
  }

  /** The key a key token of the first pattern names. */
  function KeyOf(t: string): (k: Key)
    requires IsKey(t)
    ensures KeyName(k) == t
    ensures (k.Char? && IsUpperAlnum(k.c)) || k.Named?
  {
    if |t| == 1 && IsUpperAlnum(t[0]) then
      assert t == [t[0]];
      Char(t[0])
    else Named(NamedKeyOf(t))
  }

  /** The combination whose parts are a token list the first or second pattern
      takes. */
  function ShortcutOf(ts: seq<string>): (sc: Shortcut)
    requires ModifierKeyTokens(ts) || FunctionKeyTokens(ts)
    ensures sc.Combo? && Parts(sc) == ts && Permitted(sc, [])
  {
    if ModifierKeyTokens(ts) then
      var m := ModifierOf(ts[0]);
      if |ts| == 2 then Combo(Some(m), false, KeyOf(ts[1]))
      else Combo(Some(m), true, KeyOf(ts[2]))
    else
      var f := Function(FunctionNumberOf(ts[|ts| - 1]));
      if |ts| == 1 then Combo(None, false, f)
      else if |ts| == 3 then Combo(Some(ModifierOf(ts[0])), true, f)
      else if ts[0] == "Shift" then Combo(None, true, f)
      else Combo(Some(ModifierOf(ts[0])), false, f)
  }

  /** Every accepted string is some permitted shortcut written with whitespace
      around its tokens: together with RenderAccepted, the accepted strings are
      exactly the renderings of permitted shortcuts. */
  lemma AcceptedIsRendered(s: string)
    requires Accepts(s)
    ensures exists sc: Shortcut, gaps: seq<Gap> ::
      |gaps| == |Parts(sc)| && Blank(gaps) && Render(sc, gaps) == s && Permitted(sc, gaps)
  {
    if s in MediaKeys {
      MediaIsRendered(s);
      var gaps := [Gap([], [])];
      assert Blank(gaps) && Permitted(Media(MediaKeyOf(s)), gaps);
    } else {
      CombinationIsRendered(s);
      var sc := ShortcutOf(Tokens(s));
      assert Permitted(sc, GapsOf(Pieces(s)));
    }
  }

  /** A media string is its media key written with no whitespace. */
  lemma MediaIsRendered(s: string)
    requires s in MediaKeys
    ensures Render(Media(MediaKeyOf(s)), [Gap([], [])]) == s
  {
    assert [] + s + [] == s;
    assert Surround([s], [Gap([], [])]) == [s];
  }

  /** A string whose tokens the first or second pattern takes is the combination
      those tokens name, written with the whitespace around its pieces. */
  lemma CombinationIsRendered(s: string)
    requires ModifierKeyTokens(Tokens(s)) || FunctionKeyTokens(Tokens(s))
    ensures |GapsOf(Pieces(s))| == |Parts(ShortcutOf(Tokens(s)))|
    ensures Blank(GapsOf(Pieces(s)))
    ensures Render(ShortcutOf(Tokens(s)), GapsOf(Pieces(s))) == s
  {
    PiecesAround(Pieces(s));
    JoinPieces(s);
  }

  /** Splitting and trimming undoes joining tokens with a bare `+`. */
  lemma TokensOfPlainJoin(ts: seq<string>)
    requires |ts| >= 1
    requires forall k :: 0 <= k < |ts| ==> IsToken(ts[k])
    ensures Tokens(Join(ts)) == ts
  {
    PiecesJoin(ts);
    forall k | 0 <= k < |ts| ensures Trim(ts[k]) == ts[k] {
      TrimSolid(ts[k]);
    }
    assert TrimAll(ts) == ts;
  }

  /** A string whose tokens match the first or second pattern is accepted. */
  lemma AcceptedByTokens(s: string, ts: seq<string>)
    requires Tokens(s) == ts
    requires ModifierKeyTokens(ts) || FunctionKeyTokens(ts)
    ensures Accepts(s)
  {
  }

  /** A string whose tokens match neither token pattern, and which is not a media
      key, is rejected. */
  lemma RejectedByTokens(s: string, ts: seq<string>)
    requires Tokens(s) == ts
    requires !ModifierKeyTokens(ts) && !FunctionKeyTokens(ts) && s !in MediaKeys
    ensures !Accepts(s)
  {
  }

  /** The default shortcut is accepted. */
  lemma DefaultAccepted()
    ensures Accepts(Default)
  {
    var ts := ["Ctrl", "Shift", "1"];
    assert ModifierKeyTokens(ts);
    assert Tokens(Default) == ts by {
      assert Default == Join(ts);
      TokensOfPlainJoin(ts);
    }
    AcceptedByTokens(Default, ts);
  }

  /** A string with no `+` and no surrounding whitespace is accepted exactly when
      it is a function key or a media key: a bare letter, digit or named key is
      not, and neither is `F0` or `F13`. */
  lemma SingleTokenAccepted(s: string)
    requires IsToken(s)
    ensures Accepts(s) <==> s in FunctionKeys || s in MediaKeys
  {
    assert !ModifierKeyTokens([s]);
    assert Tokens(s) == [s] by {
      assert s == Join([s]);
      TokensOfPlainJoin([s]);
    }
  }

  /** `F0` and `F13` are not function keys. */
  lemma FunctionKeyBounds()
    ensures !Accepts("F0") && !Accepts("F13")
  {
    assert IsToken("F0") && "F0" !in FunctionKeys && "F0" !in MediaKeys;
    assert IsToken("F13") && "F13" !in FunctionKeys && "F13" !in MediaKeys;
    SingleTokenAccepted("F0");
    SingleTokenAccepted("F13");
  }

  /** Without a modifier, a letter, digit or named key is rejected, also after
      `Shift+`. */
  lemma NoModifierRejected(shift: bool, key: Key, gaps: seq<Gap>)
    requires !key.Function? && |gaps| == |Parts(Combo(None, shift, key))| && Blank(gaps)
    ensures !Accepts(Render(Combo(None, shift, key), gaps))
  {
    RenderAccepted(Combo(None, shift, key), gaps);
  }

  /** Matching is case-sensitive: a lower-case key after a modifier is rejected. */
  lemma LowercaseKeyRejected(m: Modifier, c: char)
    requires 'a' <= c <= 'z'
    ensures !Accepts(ModifierName(m) + "+" + [c])
  {
    var s := ModifierName(m) + "+" + [c];
    var ts := [ModifierName(m), [c]];
    assert !ModifierKeyTokens(ts) && !FunctionKeyTokens(ts) by {
      ModifierNameIsToken(m);
    }
    assert s !in MediaKeys by {
      assert s[|ModifierName(m)|] == '+';
    }
    assert Tokens(s) == ts by {
      ModifierNameIsToken(m);
      assert ts[1..] == [[c]];
      assert s == Join(ts);
      TokensOfPlainJoin(ts);
    }
    RejectedByTokens(s, ts);
  }

  /** Matching is case-sensitive: a lower-case modifier is rejected. */
  lemma LowercaseModifierRejected()
    ensures !Accepts("ctrl+A")
  {
    var ts := ["ctrl", "A"];
    assert !ModifierKeyTokens(ts) && !FunctionKeyTokens(ts) && "ctrl+A" !in MediaKeys;
    assert Tokens("ctrl+A") == ts by {
      assert "ctrl+A" == Join(ts);
      TokensOfPlainJoin(ts);
    }
    RejectedByTokens("ctrl+A", ts);
  }

  /** A media key takes no modifier. */
  lemma MediaWithModifierRejected(m: Modifier, x: MediaKey)
    ensures !Accepts(ModifierName(m) + "+" + MediaKeyName(x))
  {
    var s := ModifierName(m) + "+" + MediaKeyName(x);
    var ts := [ModifierName(m), MediaKeyName(x)];
    assert !ModifierKeyTokens(ts) && !FunctionKeyTokens(ts) by {
      ModifierNameIsToken(m);
      MediaKeyNameIsToken(x);
      assert MediaKeyName(x) in MediaKeys;
    }
    assert s !in MediaKeys by {
      assert s[|ModifierName(m)|] == '+';
    }
    assert Tokens(s) == ts by {
      ModifierNameIsToken(m);
      MediaKeyNameIsToken(x);
      assert s == Join(ts);
      TokensOfPlainJoin(ts);
    }
    RejectedByTokens(s, ts);
  }
}
