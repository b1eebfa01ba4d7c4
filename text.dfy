/** Text helpers of the content script: role normalisation, preview snippets and the
    superscript/subscript character encoders. Strings are sequences of Unicode
    code points. */
module Text {
  import opened Config
  import opened Optional

  /** The characters JavaScript's `\s` and `String.prototype.trim` treat as white space. */
  predicate IsWs(c: char) {
    c == '\t' || c == '\n' || c == '\U{000B}' || c == '\U{000C}' || c == '\r' || c == ' ' ||
    c == '\U{00A0}' || c == '\U{1680}' || ('\U{2000}' <= c <= '\U{200A}') ||
    c == '\U{2028}' || c == '\U{2029}' || c == '\U{202F}' || c == '\U{205F}' || c == '\U{3000}' || c == '\U{FEFF}'
  }

  /** The non-white-space characters of `s`, in order. */
  function NonWs(s: string): (r: string)
    ensures |r| <= |s|
  {
    if s == [] then [] else (if IsWs(s[0]) then [] else [s[0]]) + NonWs(s[1..])
  }

  lemma {:induction false} NonWsAppend(a: string, b: string)
    ensures NonWs(a + b) == NonWs(a) + NonWs(b)
  {
    if a == [] {
      assert a + b == b;
    } else {
      assert (a + b)[1..] == a[1..] + b;
      NonWsAppend(a[1..], b);
    }
  }

  /** Drops the leading run of white space. */
  function DropWs(s: string): (r: string)
    ensures |r| <= |s|
    ensures r != [] ==> !IsWs(r[0])
  {
    if s != [] && IsWs(s[0]) then DropWs(s[1..]) else s
  }

  lemma {:induction false} DropWsNonWs(s: string)
    ensures NonWs(DropWs(s)) == NonWs(s)
  {
    if s != [] && IsWs(s[0]) {
      DropWsNonWs(s[1..]);
    }
  }

  /** `replace(/\s+/g, " ")`: every maximal run of white space becomes one space. */
  function CollapseWs(s: string): (r: string)
    decreases |s|
  {
    if s == [] then []
    else if IsWs(s[0]) then " " + CollapseWs(DropWs(s))
    else [s[0]] + CollapseWs(s[1..])
  }

  /** Only plain spaces remain as white space, never two in a row. */
  predicate SingleSpaced(r: string) {
    (forall i :: 0 <= i < |r| && IsWs(r[i]) ==> r[i] == ' ') &&
    (forall i :: 0 <= i < |r| - 1 ==> !(r[i] == ' ' && r[i + 1] == ' '))
  }

  lemma {:induction false} CollapseWsProps(s: string)
    ensures NonWs(CollapseWs(s)) == NonWs(s)
    ensures SingleSpaced(CollapseWs(s))
    ensures s != [] && !IsWs(s[0]) ==> CollapseWs(s) != [] && CollapseWs(s)[0] == s[0]
    ensures s != [] ==> CollapseWs(s) != []
    decreases |s|
  {
    if s == [] {
    } else if IsWs(s[0]) {
      var rest := DropWs(s);
      CollapseWsProps(rest);
      DropWsNonWs(s);
      NonWsAppend(" ", CollapseWs(rest));
      assert NonWs(" ") == [] by { assert " "[1..] == []; }
      assert s[1..] == s[1..];
      assert NonWs(s) == NonWs(s[1..]);
      assert DropWs(s) == DropWs(s[1..]);
      DropWsNonWs(s[1..]);
    } else {
      CollapseWsProps(s[1..]);
      NonWsAppend([s[0]], CollapseWs(s[1..]));
      assert NonWs([s[0]]) == [s[0]] by { assert [s[0]][1..] == []; }
    }
  }

  function TrimStart(s: string): (r: string)
    ensures r != [] ==> !IsWs(r[0])
  {
    DropWs(s)
  }

  function TrimEnd(s: string): (r: string)
    ensures |r| <= |s| && r == s[..|r|]
    ensures r != [] ==> !IsWs(r[|r| - 1])
    ensures forall i :: |r| <= i < |s| ==> IsWs(s[i])
  {
    if s != [] && IsWs(s[|s| - 1]) then TrimEnd(s[..|s| - 1]) else s
  }

  /** `String.prototype.trim`. */
  function Trim(s: string): (r: string)
    ensures r != [] ==> !IsWs(r[0]) && !IsWs(r[|r| - 1])
  {
    var t := TrimEnd(TrimStart(s));
    assert t != [] ==> t[0] == TrimStart(s)[0];
    t
  }

  lemma {:induction false} TrimEndNonWs(s: string)
    ensures NonWs(TrimEnd(s)) == NonWs(s)
  {
    if s != [] && IsWs(s[|s| - 1]) {
      var p := s[..|s| - 1];
      TrimEndNonWs(p);
      assert s == p + [s[|s| - 1]];
      NonWsAppend(p, [s[|s| - 1]]);
      assert NonWs([s[|s| - 1]]) == [] by { assert [s[|s| - 1]][1..] == []; }
    }
  }

  lemma TrimProps(s: string)
    ensures NonWs(Trim(s)) == NonWs(s)
    ensures SingleSpaced(s) ==> SingleSpaced(Trim(s))
  {
    DropWsNonWs(s);
    TrimEndNonWs(DropWs(s));
    if SingleSpaced(s) {
      DropWsSuffix(s);
    }
  }

  lemma {:induction false} DropWsSuffix(s: string)
    ensures |DropWs(s)| <= |s| && DropWs(s) == s[|s| - |DropWs(s)|..]
  {
    if s != [] && IsWs(s[0]) {
      DropWsSuffix(s[1..]);
    }
  }

  lemma NonWsPrefix(s: string, k: nat)
    requires k <= |s|
    ensures NonWs(s[..k]) <= NonWs(s)
  {
    assert s == s[..k] + s[k..];
    NonWsAppend(s[..k], s[k..]);
  }

  lemma {:induction false} NonWsEmpty(s: string)
    ensures NonWs(s) == [] <==> forall i :: 0 <= i < |s| ==> IsWs(s[i])
  {
    if s != [] {
      NonWsEmpty(s[1..]);
      assert forall i :: 1 <= i < |s| ==> s[i] == s[1..][i - 1];
    }
  }

  /** The length of the leading run of visible characters. */
  function WordLen(t: string): (n: nat)
    ensures n <= |t|
    ensures forall i :: 0 <= i < n ==> !IsWs(t[i])
    ensures n < |t| ==> IsWs(t[n])
  {
    if t == [] || IsWs(t[0]) then 0 else 1 + WordLen(t[1..])
  }

  /** The words of `s`: its maximal runs of visible characters, in order. */
  function Words(s: string): (ws: seq<string>)
    decreases |s|
  {
    var t := DropWs(s);
    if t == [] then []
    else
      var n := WordLen(t);
      [t[..n]] + Words(t[n..])
  }

  /** `words` joined with one space between neighbours. */
  function Join(words: seq<string>): string {
    if words == [] then []
    else if |words| == 1 then words[0]
    else words[0] + " " + Join(words[1..])
  }

  /** Every word is non-empty and holds no white space. */
  predicate IsWord(w: string) {
    w != [] && forall i :: 0 <= i < |w| ==> !IsWs(w[i])
  }

  lemma {:induction false} WordsAreWords(s: string)
    ensures forall k :: 0 <= k < |Words(s)| ==> IsWord(Words(s)[k])
    decreases |s|
  {
    var t := DropWs(s);
    if t != [] {
      var n := WordLen(t);
      WordsAreWords(t[n..]);
    }
  }

  /** Joining words gives an empty text only for no words, and otherwise a text
      that starts and ends with a visible character. */
  lemma {:induction false} JoinEnds(words: seq<string>)
    requires forall k :: 0 <= k < |words| ==> IsWord(words[k])
    ensures Join(words) == [] <==> words == []
    ensures Join(words) != [] ==> !IsWs(Join(words)[0]) && !IsWs(Join(words)[|Join(words)| - 1])
  {
    if |words| > 1 {
      JoinEnds(words[1..]);
    }
  }

  /** The words of a text together are exactly its visible characters. */
  lemma {:induction false} WordsCoverNonWs(s: string)
    ensures NonWs(s) == Concat(Words(s))
    decreases |s|
  {
    var t := DropWs(s);
    DropWsNonWs(s);
    if t != [] {
      var n := WordLen(t);
      WordsCoverNonWs(t[n..]);
      assert t == t[..n] + t[n..];
      NonWsAppend(t[..n], t[n..]);
      NonWsOfWord(t[..n]);
    } else {
      assert NonWs(t) == [];
    }
  }

  function Concat(words: seq<string>): string {
    if words == [] then [] else words[0] + Concat(words[1..])
  }

  lemma {:induction false} NonWsOfWord(w: string)
    requires forall i :: 0 <= i < |w| ==> !IsWs(w[i])
    ensures NonWs(w) == w
  {
    if w != [] {
      NonWsOfWord(w[1..]);
      assert w == [w[0]] + w[1..];
    }
  }

  /** A run of visible characters passes through the white-space collapse. */
  lemma {:induction false} CollapseWord(t: string, n: nat)
    requires n <= |t| && forall i :: 0 <= i < n ==> !IsWs(t[i])
    ensures CollapseWs(t) == t[..n] + CollapseWs(t[n..])
  {
    if n > 0 {
      CollapseWord(t[1..], n - 1);
      assert t[1..][n - 1..] == t[n..];
      assert t[..n] == [t[0]] + t[1..][..n - 1];
    }
  }

  predicate EndsWs(s: string) {
    s != [] && IsWs(s[|s| - 1])
  }

  /** A text whose leading white space is all there is ends in white space. */
  lemma {:induction false} DropWsEmpty(s: string)
    requires s != [] && DropWs(s) == []
    ensures EndsWs(s)
  {
    if |s| > 1 {
      DropWsEmpty(s[1..]);
    }
  }

  /** A text and what remains of it after its leading white space end alike. */
  lemma DropWsEnds(s: string)
    requires DropWs(s) != []
    ensures EndsWs(s) == EndsWs(DropWs(s))
  {
    DropWsSuffix(s);
  }

  /** A word followed by white space: the word, one space, then the collapse of
      what follows the white space. */
  lemma CollapseAfterWord(t: string)
    requires WordLen(t) < |t|
    ensures CollapseWs(t) == t[..WordLen(t)] + " " + CollapseWs(DropWs(t[WordLen(t)..]))
  {
    var n := WordLen(t);
    CollapseWord(t, n);
    CollapseBlankStart(t[n..]);
    Regroup(t[..n], " ", CollapseWs(DropWs(t[n..])));
  }

  /** A text that starts with white space collapses to one space, then the
      collapse of what follows its leading white space. */
  lemma CollapseBlankStart(r: string)
    requires r != [] && IsWs(r[0])
    ensures CollapseWs(r) == " " + CollapseWs(DropWs(r))
  {
  }

  /** Joining one more word in front. */
  lemma JoinCons(w: string, ws: seq<string>)
    ensures Join([w] + ws) == if ws == [] then w else w + " " + Join(ws)
  {
    assert ([w] + ws)[1..] == ws;
  }

  /** After its leading white space, the collapse of a text is its words joined
      by single spaces, followed by one space when the text ends in white space
      after a word. */
  lemma {:induction false} CollapseIsJoin(s: string)
    ensures CollapseWs(DropWs(s)) == Join(Words(s)) + (if Words(s) != [] && EndsWs(s) then " " else "")
    decreases |s|
  {
    var t := DropWs(s);
    if t != [] {
      DropWsEnds(s);
      var rest := t[WordLen(t)..];
      WordsOfWordStart(s);
      if rest == [] {
        CollapseOneWord(t);
      } else {
        CollapseIsJoin(rest);
        CollapseWordThenRest(t);
      }
    }
  }

  /** The words of a text are its first word followed by the words after it. */
  lemma WordsOfWordStart(s: string)
    requires DropWs(s) != []
    ensures var t := DropWs(s);
      Words(s) == [t[..WordLen(t)]] + Words(t[WordLen(t)..])
  {
  }

  /** A text that is one word collapses to itself and does not end in white space. */
  lemma CollapseOneWord(t: string)
    requires t != [] && WordLen(t) == |t|
    ensures CollapseWs(t) == Join([t[..WordLen(t)]]) && !EndsWs(t)
  {
    CollapseWord(t, |t|);
    assert t[..|t|] == t;
    assert t[|t|..] == [];
  }

  /** A text has no words exactly when it is all white space. */
  lemma WordsEmpty(s: string)
    ensures Words(s) == [] <==> DropWs(s) == []
  {
  }

  /** A text ends like any non-empty suffix of it. */
  lemma EndsWsSuffix(t: string, n: nat)
    requires n < |t|
    ensures EndsWs(t) == EndsWs(t[n..])
  {
    assert t[n..][|t| - n - 1] == t[|t| - 1];
  }

  /** The inductive step of `CollapseIsJoin`: a word, then white space. */
  lemma CollapseWordThenRest(t: string)
    requires t != [] && WordLen(t) < |t|
    requires var rest := t[WordLen(t)..];
      CollapseWs(DropWs(rest)) == Join(Words(rest)) + (if Words(rest) != [] && EndsWs(rest) then " " else "")
    ensures var rest := t[WordLen(t)..];
      var ws := [t[..WordLen(t)]] + Words(rest);
      CollapseWs(t) == Join(ws) + (if EndsWs(t) then " " else "")
  {
    var n := WordLen(t);
    JoinCons(t[..n], Words(t[n..]));
    if Words(t[n..]) == [] {
      WordThenBlank(t);
    } else {
      WordThenWords(t);
    }
  }

  /** A word followed by nothing but white space collapses to the word and one space. */
  lemma WordThenBlank(t: string)
    requires t != [] && WordLen(t) < |t| && Words(t[WordLen(t)..]) == []
    ensures CollapseWs(t) == t[..WordLen(t)] + " " && EndsWs(t)
  {
    var n := WordLen(t);
    CollapseAfterWord(t);
    WordsEmpty(t[n..]);
    DropWsEmpty(t[n..]);
    EndsWsSuffix(t, n);
  }

  /** A word followed by white space and more words. */
  lemma WordThenWords(t: string)
    requires t != [] && WordLen(t) < |t|
    requires var rest := t[WordLen(t)..];
      Words(rest) != [] &&
      CollapseWs(DropWs(rest)) == Join(Words(rest)) + (if EndsWs(rest) then " " else "")
    ensures var rest := t[WordLen(t)..];
      CollapseWs(t) == t[..WordLen(t)] + " " + Join(Words(rest)) + (if EndsWs(t) then " " else "")
  {
    var n := WordLen(t);
    CollapseAfterWord(t);
    EndsWsSuffix(t, n);
    var j, e := Join(Words(t[n..])), if EndsWs(t) then " " else "";
    Regroup(t[..n] + " ", j, e);
  }

  /** Concatenation is associative. */
  lemma Regroup(a: string, b: string, c: string)
    ensures a + (b + c) == a + b + c
  {
  }

  /** `replace(/\s+/g, " ")` in terms of words: one space for leading white space,
      the words joined by single spaces, one space for trailing white space. */
  lemma CollapseWsIsJoin(s: string)
    ensures CollapseWs(s) ==
      (if s != [] && IsWs(s[0]) then " " else "") + Join(Words(s)) + (if Words(s) != [] && EndsWs(s) then " " else "")
  {
    CollapseIsJoin(s);
    if !(s != [] && IsWs(s[0])) {
      assert DropWs(s) == s;
    }
  }

  /** The cleaned text of `makeSnippet` is the text's words joined by single
      spaces. */
  lemma CleanedIsJoin(s: string)
    ensures Trim(CollapseWs(s)) == Join(Words(s))
  {
    var j := Join(Words(s));
    var x := CollapseWs(DropWs(s));
    CollapseIsJoin(s);
    WordsAreWords(s);
    JoinEnds(Words(s));
    assert CollapseWs(s) == x || CollapseWs(s) == " " + x by {
      if s != [] && IsWs(s[0]) {
        assert CollapseWs(s) == " " + x;
      } else {
        assert DropWs(s) == s;
      }
    }
    assert DropWs(x) == x;
    assert TrimStart(CollapseWs(s)) == x;
    if x != j {
      assert x == j + " ";
      assert x[..|x| - 1] == j;
      assert TrimEnd(x) == TrimEnd(j);
    }
    assert TrimEnd(j) == j;
  }

  /** `makeSnippet`: white space collapsed and trimmed, cut to 120 characters; the
      empty string when the text holds nothing but white space. */
  function MakeSnippet(text: string): (r: string)
    ensures |r| <= MaxSnippetLength
    ensures r == [] <==> forall i :: 0 <= i < |text| ==> IsWs(text[i])
    ensures r != [] ==> !IsWs(r[0])
    ensures SingleSpaced(r)
    ensures NonWs(r) <= NonWs(text)
    ensures |Trim(CollapseWs(text))| <= MaxSnippetLength ==> NonWs(r) == NonWs(text) && (r != [] ==> !IsWs(r[|r| - 1]))
    ensures var c := Join(Words(text));
      |r| == (if |c| < MaxSnippetLength then |c| else MaxSnippetLength) && r == c[..|r|]
  {
    var cleaned := Trim(CollapseWs(text));
    CleanedProps(text);
    CleanedIsJoin(text);
    if cleaned == [] then []
    else
      var n := if |cleaned| < MaxSnippetLength then |cleaned| else MaxSnippetLength;
      SnippetCut(cleaned, n);
      cleaned[..n]
  }

  /** The collapsed and trimmed text keeps the visible characters, is single
      spaced, is empty exactly for a text of white space only, and otherwise
      starts and ends with a visible character. */
  lemma CleanedProps(text: string)
    ensures var c := Trim(CollapseWs(text));
      NonWs(c) == NonWs(text) && SingleSpaced(c) &&
      (c == [] <==> forall i :: 0 <= i < |text| ==> IsWs(text[i])) &&
      (c != [] ==> !IsWs(c[0]) && !IsWs(c[|c| - 1]))
  {
    CollapseWsProps(text);
    TrimProps(CollapseWs(text));
    NonWsEmpty(text);
    NonWsEmpty(Trim(CollapseWs(text)));
  }

  /** Cutting a single-spaced text that starts with a visible character keeps both
      properties, and keeps only visible characters of the text. */
  lemma SnippetCut(cleaned: string, n: nat)
    requires 0 < n <= |cleaned| && SingleSpaced(cleaned) && !IsWs(cleaned[0])
    ensures var r := cleaned[..n];
      SingleSpaced(r) && !IsWs(r[0]) && NonWs(r) <= NonWs(cleaned) && (n == |cleaned| ==> r == cleaned)
  {
    NonWsPrefix(cleaned, n);
  }

  /** Words keep one space between them: a line break and the spaces around it
      become a single space, and the text's ends are trimmed. */
  lemma SnippetOfTwoWords()
    ensures MakeSnippet(" a \n b ") == "a b"
  {
    var text := " a \n b ";
    assert DropWs(text) == "a \n b ";
    assert WordLen("a \n b ") == 1;
    assert DropWs(" \n b ") == "b ";
    assert WordLen("b ") == 1;
    assert DropWs(" ") == [];
    assert Words(" ") == [];
    assert "b "[..1] == "b" && "b "[1..] == " ";
    assert Words(" \n b ") == ["b"];
    assert "a \n b "[..1] == "a" && "a \n b "[1..] == " \n b ";
    assert Words(text) == ["a", "b"];
    assert Join(["a", "b"]) == "a b";
  }

  /** A snippet is white-space normal, but cutting at 120 characters can leave a
      trailing space, so a snippet is not always a fixed point of `makeSnippet`. */
  lemma SnippetCutCanEndInSpace()
    ensures var text := seq(119, i => 'a') + " bc";
            var r := MakeSnippet(text);
            |r| == 120 && r[119] == ' ' && MakeSnippet(r) != r
  {
    var text := seq(119, i => 'a') + " bc";
    LongLineSnippet(text);
    var r := text[..120];
    assert r[119] == ' ';
    TrailingSpaceSnippet(r);
  }

  /** The snippet of a single-spaced 122-character line is its first 120
      characters. */
  lemma LongLineSnippet(text: string)
    requires text == seq(119, i => 'a') + " bc"
    ensures MakeSnippet(text) == text[..120]
  {
    assert CollapseWs(text) == text by { CollapseIdentity(text); }
    assert Trim(text) == text by {
      assert TrimStart(text) == text;
      assert TrimEnd(text) == text;
    }
  }

  /** A single-spaced line ending in a space loses that space to the trim. */
  lemma TrailingSpaceSnippet(r: string)
    requires |r| == 120 && r[119] == ' ' && forall i :: 0 <= i < 119 ==> r[i] == 'a'
    ensures |MakeSnippet(r)| < 120
  {
    assert CollapseWs(r) == r by { CollapseIdentity(r); }
    assert TrimStart(r) == r;
    assert TrimEnd(r) == TrimEnd(r[..119]);
  }

  /** Text that is already single-spaced is left alone by the white-space collapse. */
  lemma {:induction false} CollapseIdentity(s: string)
    requires forall i :: 0 <= i < |s| ==> !IsWs(s[i]) || s[i] == ' '
    requires forall i :: 0 <= i < |s| - 1 ==> !(s[i] == ' ' && s[i + 1] == ' ')
    ensures CollapseWs(s) == s
  {
    if s != [] {
      if IsWs(s[0]) {
        assert s[0] == ' ';
        if |s| > 1 {
          assert !IsWs(s[1]);
        }
        assert DropWs(s) == s[1..];
        CollapseIdentity(s[1..]);
      } else {
        CollapseIdentity(s[1..]);
      }
    }
  }

  /** `clampSnippet`: text up to `maxLength` is kept; longer text is cut to
      `maxLength` characters followed by an ellipsis of three dots. */
  function ClampSnippet(text: string, maxLength: nat): (r: string)
    ensures |text| <= maxLength ==> r == text
    ensures |text| > maxLength ==> |r| == maxLength + 3 && r[..maxLength] == text[..maxLength] && r[maxLength..] == "..."
  {
    if text == [] then []
    else if |text| <= maxLength then text
    else text[..maxLength] + "..."
  }

  /** The two roles an entry can have. */
  datatype Role = User | Assistant

  function RoleName(r: Role): string {
    match r
    case User => "user"
    case Assistant => "assistant"
  }

  /** `toLowerCase` restricted to the characters whose lower case is a single ASCII
      character: A-Z and the Kelvin sign U+212A, which lowers to `k`. Every other
      character lowers to something that is not ASCII, so leaving it unchanged keeps
      every comparison with an ASCII key exact. */
  function LowerKey(c: char): (d: char)
    ensures 'a' <= d <= 'z' ==> 'A' <= c <= 'Z' || c == d || c == '\U{212A}'
  {
    if 'A' <= c <= 'Z' then (c as int + 32) as char
    else if c == '\U{212A}' then 'k'
    else c
  }

  function Lower(s: string): (r: string)
    ensures |r| == |s| && forall i :: 0 <= i < |s| ==> r[i] == LowerKey(s[i])
  {
    if s == [] then [] else [LowerKey(s[0])] + Lower(s[1..])
  }

  /** `normalizeRole`: trimmed and lower-cased, "user" is the user role and anything
      else, including a missing attribute, is the assistant role. */
  function NormalizeRole(value: string): Role {
    if Lower(Trim(value)) == "user" then User else Assistant
  }

  /** Normalising a role's own name gives that role back. */
  lemma NormalizeRoleName(r: Role)
    ensures NormalizeRole(RoleName(r)) == r
  {
    var name := RoleName(r);
    TrimVisibleEnds(name);
    if r == User {
      var lower := Lower(name);
      assert lower[0] == 'u' && lower[1] == 's' && lower[2] == 'e' && lower[3] == 'r';
      assert lower == "user";
    } else {
      assert |Lower(name)| == 9;
    }
  }

  /** A text that starts and ends with a visible character is its own trim. */
  lemma TrimVisibleEnds(s: string)
    requires s != [] && !IsWs(s[0]) && !IsWs(s[|s| - 1])
    ensures Trim(s) == s
  {
    assert TrimStart(s) == s;
  }

  /** Case and surrounding white space do not matter: " USER\n" is the user role. */
  lemma NormalizeRoleIgnoresCaseAndSpace()
    ensures NormalizeRole(" USER\n") == User
  {
    assert " USER\n"[1..] == "USER\n";
    assert TrimStart(" USER\n") == "USER\n";
    assert "USER\n"[..4] == "USER";
    assert TrimEnd("USER\n") == TrimEnd("USER") == "USER";
    var lower := Lower("USER");
    assert lower[0] == 'u' && lower[1] == 's' && lower[2] == 'e' && lower[3] == 'r';
    assert lower == "user";
  }

  /** Superscript forms of the characters `toSuperscript` knows. */
  function SupChar(c: char): Option<char> {
    match c
    case '0' => Some('⁰') case '1' => Some('¹') case '2' => Some('²')
    case '3' => Some('³') case '4' => Some('⁴') case '5' => Some('⁵')
    case '6' => Some('⁶') case '7' => Some('⁷') case '8' => Some('⁸')
    case '9' => Some('⁹') case '+' => Some('⁺') case '-' => Some('⁻')
    case '=' => Some('⁼') case '(' => Some('⁽') case ')' => Some('⁾')
    case 'n' => Some('ⁿ') case 'i' => Some('ⁱ')
    case _ => None
  }

  /** Inverse table of SupChar. */
  function FromSupChar(c: char): Option<char> {
    match c
    case '⁰' => Some('0') case '¹' => Some('1') case '²' => Some('2')
    case '³' => Some('3') case '⁴' => Some('4') case '⁵' => Some('5')
    case '⁶' => Some('6') case '⁷' => Some('7') case '⁸' => Some('8')
    case '⁹' => Some('9') case '⁺' => Some('+') case '⁻' => Some('-')
    case '⁼' => Some('=') case '⁽' => Some('(') case '⁾' => Some(')')
    case 'ⁿ' => Some('n') case 'ⁱ' => Some('i')
    case _ => None
  }

  /** Subscript forms of the (lower-cased) characters `toSubscript` knows. */
  function SubChar(c: char): Option<char> {
    match c
    case '0' => Some('₀') case '1' => Some('₁') case '2' => Some('₂')
    case '3' => Some('₃') case '4' => Some('₄') case '5' => Some('₅')
    case '6' => Some('₆') case '7' => Some('₇') case '8' => Some('₈')
    case '9' => Some('₉') case '+' => Some('₊') case '-' => Some('₋')
    case '=' => Some('₌') case '(' => Some('₍') case ')' => Some('₎')
    case 'a' => Some('ₐ') case 'e' => Some('ₑ') case 'h' => Some('ₕ')
    case 'i' => Some('ᵢ') case 'j' => Some('ⱼ') case 'k' => Some('ₖ')
    case 'l' => Some('ₗ') case 'm' => Some('ₘ') case 'n' => Some('ₙ')
    case 'o' => Some('ₒ') case 'p' => Some('ₚ') case 'r' => Some('ᵣ')
    case 's' => Some('ₛ') case 't' => Some('ₜ') case 'u' => Some('ᵤ')
    case 'v' => Some('ᵥ') case 'x' => Some('ₓ')
    case _ => None
  }

  /** Inverse table of SubChar. */
  function FromSubChar(c: char): Option<char> {
    match c
    case '₀' => Some('0') case '₁' => Some('1') case '₂' => Some('2')
    case '₃' => Some('3') case '₄' => Some('4') case '₅' => Some('5')
    case '₆' => Some('6') case '₇' => Some('7') case '₈' => Some('8')
    case '₉' => Some('9') case '₊' => Some('+') case '₋' => Some('-')
    case '₌' => Some('=') case '₍' => Some('(') case '₎' => Some(')')
    case 'ₐ' => Some('a') case 'ₑ' => Some('e') case 'ₕ' => Some('h')
    case 'ᵢ' => Some('i') case 'ⱼ' => Some('j') case 'ₖ' => Some('k')
    case 'ₗ' => Some('l') case 'ₘ' => Some('m') case 'ₙ' => Some('n')
    case 'ₒ' => Some('o') case 'ₚ' => Some('p') case 'ᵣ' => Some('r')
    case 'ₛ' => Some('s') case 'ₜ' => Some('t') case 'ᵤ' => Some('u')
    case 'ᵥ' => Some('v') case 'ₓ' => Some('x')
    case _ => None
  }

  lemma SupCharInverse(c: char)
    ensures SupChar(c).Some? ==> FromSupChar(SupChar(c).value) == Some(c)
  {
  }

  lemma SubCharInverse(c: char)
    ensures SubChar(c).Some? ==> FromSubChar(SubChar(c).value) == Some(c)
  {
  }

  /** Maps every character through `f`, failing as soon as one has no image. */
  function MapAll(s: string, f: char -> Option<char>): (r: Option<string>)
    ensures r.Some? <==> forall i :: 0 <= i < |s| ==> f(s[i]).Some?
    ensures r.Some? ==> |r.value| == |s| && forall i :: 0 <= i < |s| ==> r.value[i] == f(s[i]).value
  {
    if s == [] then Some([])
    else if f(s[0]).None? then None
    else
      var rest := MapAll(s[1..], f);
      assert forall i :: 1 <= i < |s| ==> s[i] == s[1..][i - 1];
      if rest.None? then None else Some([f(s[0]).value] + rest.value)
  }

  /** Mapping with `f` and then with an inverse table `g` of `f` gives the input back. */
  lemma MapAllInverse(s: string, f: char -> Option<char>, g: char -> Option<char>)
    requires forall c :: f(c).Some? ==> g(f(c).value) == Some(c)
    requires MapAll(s, f).Some?
    ensures MapAll(MapAll(s, f).value, g) == Some(s)
  {
    var t := MapAll(s, f).value;
    var u := MapAll(t, g);
    assert forall i :: 0 <= i < |t| ==> g(t[i]) == Some(s[i]);
    assert u.value == s;
  }

  /** `toSuperscript`: every character in superscript form, or `^(value)` when the
      value is empty or holds a character without one. */
  function ToSuperscript(value: string): (r: string)
    ensures value == [] || MapAll(value, SupChar).None? ==> r == "^(" + value + ")"
    ensures value != [] && MapAll(value, SupChar).Some? ==>
      |r| == |value| && forall i :: 0 <= i < |value| ==> r[i] == SupChar(value[i]).value
  {
    match MapAll(value, SupChar)
    case Some(out) => if out == [] then "^(" + value + ")" else out
    case None => "^(" + value + ")"
  }

  /** `toSubscript`: as ToSuperscript, over the lower-cased characters, with `_(value)`
      as the fallback. */
  function ToSubscript(value: string): (r: string)
    ensures value == [] || MapAll(Lower(value), SubChar).None? ==> r == "_(" + value + ")"
    ensures value != [] && MapAll(Lower(value), SubChar).Some? ==>
      |r| == |value| && forall i :: 0 <= i < |value| ==> r[i] == SubChar(LowerKey(value[i])).value
  {
    match MapAll(Lower(value), SubChar)
    case Some(out) => if out == [] then "_(" + value + ")" else out
    case None => "_(" + value + ")"
  }

  /** Encoded superscripts decode back to the original value. */
  lemma SuperscriptRoundTrip(value: string)
    requires value != [] && MapAll(value, SupChar).Some?
    ensures MapAll(ToSuperscript(value), FromSupChar) == Some(value)
  {
    forall c | SupChar(c).Some? ensures FromSupChar(SupChar(c).value) == Some(c) {
      SupCharInverse(c);
    }
    MapAllInverse(value, SupChar, FromSupChar);
  }

  /** Encoded subscripts decode back to the lower-cased value. */
  lemma SubscriptRoundTrip(value: string)
    requires value != [] && MapAll(Lower(value), SubChar).Some?
    ensures MapAll(ToSubscript(value), FromSubChar) == Some(Lower(value))
  {
    forall c | SubChar(c).Some? ensures FromSubChar(SubChar(c).value) == Some(c) {
      SubCharInverse(c);
    }
    MapAllInverse(Lower(value), SubChar, FromSubChar);
  }

  /** Upper-case letters take their lower-case subscript: "X" becomes "ₓ". */
  lemma SubscriptFoldsCase()
    ensures ToSubscript("X") == "ₓ"
    ensures ToSuperscript("x") == "^(x)"
  {
  }
}
