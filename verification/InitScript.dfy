/** The text transformations of the init scripts: quoting the password as a config token,
    substituting the placeholder, the guard against an unsubstituted one, and rebuilding the
    credential lines of the ACL file and of the sentinel state file.
 */
module InitScript {
  import opened Basics

  const PH: string := "${REDIS_PASSWORD}"

  /** ValidateAuthPassword. */
  predicate ValidPassword(p: string) {
    p != "" && forall i :: 0 <= i < |p| ==> PlainChar(p[i])
  }

  /** Not a double quote, a backslash, white space or a control character. */
  predicate PlainChar(c: char) {
    && c != '\"' && c != '\\'
    && c > ' ' && !('\U{7F}' <= c <= '\U{A0}')
    && c != '\U{1680}' && !('\U{2000}' <= c <= '\U{200A}')
    && c != '\U{2028}' && c != '\U{2029}' && c != '\U{202F}' && c != '\U{205F}' && c != '\U{3000}'
  }

  /** Of ASCII passwords, exactly those of printing characters other than blank, double quote and
      backslash are accepted. */
  lemma AsciiPasswordIsValidExactlyWhen(p: string)
    requires forall i :: 0 <= i < |p| ==> p[i] < '\U{80}'
    ensures ValidPassword(p) <==>
      p != "" && forall i :: 0 <= i < |p| ==> '!' <= p[i] <= '~' && p[i] != '\"' && p[i] != '\\'
  {
    forall i | 0 <= i < |p| ensures PlainChar(p[i]) <==> '!' <= p[i] <= '~' && p[i] != '\"' && p[i] != '\\' {
      AsciiCharIsPlainExactlyWhen(p[i]);
    }
    hide PlainChar;
  }

  lemma AsciiCharIsPlainExactlyWhen(c: char)
    requires c < '\U{80}'
    ensures PlainChar(c) <==> '!' <= c <= '~' && c != '\"' && c != '\\'
  {
  }

  // ------------------------------------------------------------------ quoting

  predicate Special(c: char) { c == '\\' || c == '\"' }

  function Escape(raw: string): string {
    if raw == "" then "" else (if Special(raw[0]) then ['\\', raw[0]] else [raw[0]]) + Escape(raw[1..])
  }

  function Quoted(raw: string): string { ['\"'] + Escape(raw) + ['\"'] }

  lemma {:induction false} EscapeAppend(raw: string, c: char)
    ensures Escape(raw + [c]) == Escape(raw) + (if Special(c) then ['\\', c] else [c])
  {
    if raw == "" {
      assert raw + [c] == [c];
    } else {
      assert (raw + [c])[1..] == raw[1..] + [c];
      EscapeAppend(raw[1..], c);
    }
  }

  /** The BEGIN block of the awk program. */
  method Quote(raw: string) returns (pass: string)
    ensures pass == Quoted(raw)
  {
    pass := ['\"'];
    for j := 0 to |raw|
      invariant pass == ['\"'] + Escape(raw[..j])
    {
      EscapeAppend(raw[..j], raw[j]);
      assert raw[..j + 1] == raw[..j] + [raw[j]];
      if Special(raw[j]) {
        pass := pass + ['\\'];
      }
      pass := pass + [raw[j]];
    }
    assert raw[..|raw|] == raw;
    pass := pass + ['\"'];
  }

  // ------------------------------------------------------------------ substitution

  /** Replace-all, left to right, by the book. */
  function ReplaceAll(line: string, ph: string, pass: string): string
    requires ph != ""
    decreases |line|
  {
    if line == "" then ""
    else if ph <= line then pass + ReplaceAll(line[|ph|..], ph, pass)
    else [line[0]] + ReplaceAll(line[1..], ph, pass)
  }

  /** awk's index(): the first position, from 1, or 0. */
  function Index(s: string, ph: string): nat
    decreases |s|
  {
    if ph <= s then 1
    else if s == "" then 0
    else var i := Index(s[1..], ph); if i == 0 then 0 else i + 1
  }

  lemma {:induction false} NothingToReplace(s: string, ph: string, pass: string)
    requires ph != "" && Index(s, ph) == 0
    ensures ReplaceAll(s, ph, pass) == s
    decreases |s|
  {
    if s != "" {
      NothingToReplace(s[1..], ph, pass);
      assert [s[0]] + s[1..] == s;
    }
  }

  lemma {:induction false} IndexFits(s: string, ph: string)
    ensures Index(s, ph) > 0 ==> Index(s, ph) - 1 + |ph| <= |s|
    decreases |s|
  {
    if s != "" { IndexFits(s[1..], ph); }
  }

  lemma Regroup(c: char, x: string, y: string, z: string)
    ensures [c] + (x + y + z) == ([c] + x) + y + z
  {
  }

  lemma ReplaceUnfolds(s: string, ph: string, pass: string)
    requires ph != "" && s != ""
    ensures ph <= s ==> ReplaceAll(s, ph, pass) == pass + ReplaceAll(s[|ph|..], ph, pass) && Index(s, ph) == 1
    ensures !(ph <= s) ==> ReplaceAll(s, ph, pass) == [s[0]] + ReplaceAll(s[1..], ph, pass)
    ensures !(ph <= s) && Index(s, ph) > 0 ==> Index(s[1..], ph) == Index(s, ph) - 1
  {
  }

  lemma {:induction false} FirstReplaced(s: string, ph: string, pass: string, i: nat)
    requires ph != "" && Index(s, ph) == i + 1 && i + |ph| <= |s|
    ensures ReplaceAll(s, ph, pass) == s[..i] + pass + ReplaceAll(s[i + |ph|..], ph, pass)
    decreases |s|
  {
    IndexFits(s, ph);
    hide ReplaceAll;
    ReplaceUnfolds(s, ph, pass);
    if ph <= s {
      assert s[..i] + pass == pass;
    } else {
      hide Index;
      var rest := ReplaceAll(s[i + |ph|..], ph, pass);
      FirstReplaced(s[1..], ph, pass, i - 1);
      assert s[1..][i - 1 + |ph|..] == s[i + |ph|..];
      Regroup(s[0], s[1..][..i - 1], pass, rest);
      assert s[..i] == [s[0]] + s[1..][..i - 1];
    }
  }

  lemma Associate(a: string, b: string, c: string, d: string)
    ensures a + (b + c + d) == a + b + c + d
  {
  }

  /** The substitution loop of one line. */
  method Substitute(line: string, ph: string, pass: string) returns (out: string)
    requires ph != ""
    ensures out == ReplaceAll(line, ph, pass)
  {
    out := "";
    var rest := line;
    var i := Index(rest, ph);
    while i > 0
      invariant i == Index(rest, ph) && out + ReplaceAll(rest, ph, pass) == ReplaceAll(line, ph, pass)
      decreases |rest|
    {
      IndexFits(rest, ph);
      FirstReplaced(rest, ph, pass, i - 1);
      hide ReplaceAll, Index;
      Associate(out, rest[..i - 1], pass, ReplaceAll(rest[i - 1 + |ph|..], ph, pass));
      out := out + rest[..i - 1] + pass;
      rest := rest[i - 1 + |ph|..];
      i := Index(rest, ph);
    }
    NothingToReplace(rest, ph, pass);
    out := out + rest;
  }

  // ------------------------------------------------------------------ the config tokenizer

  predicate Blank(c: char) { c == ' ' || c == '\t' || c == '\n' || c == '\r' || '\U{0B}' <= c <= '\U{0C}' }

  predicate Hex(c: char) { '0' <= c <= '9' || 'a' <= c <= 'f' || 'A' <= c <= 'F' }

  function HexValue(c: char): (v: int)
    requires Hex(c)
    ensures 0 <= v < 16
  {
    if c <= '9' then c as int - '0' as int else if c <= 'F' then c as int - 'A' as int + 10
      else c as int - 'a' as int + 10
  }

  function Unescaped(c: char): char {
    if c == 'n' then '\n' else if c == 'r' then '\r' else if c == 't' then '\t'
    else if c == 'b' then '\U{08}' else if c == 'a' then '\U{07}' else c
  }

  function Prepend(c: char, r: Option<(string, string)>): Option<(string, string)> {
    if r.None? then None else Some(([c] + r.value.0, r.value.1))
  }

  /** After an opening double quote: the decoded token and what follows its closing quote, which
      must be a blank or the end. */
  function InDouble(s: string): Option<(string, string)>
    decreases |s|
  {
    if s == "" then None
    else if s[0] == '\\' && |s| >= 4 && s[1] == 'x' && Hex(s[2]) && Hex(s[3]) then
      Prepend((16 * HexValue(s[2]) + HexValue(s[3])) as char, InDouble(s[4..]))
    else if s[0] == '\\' && |s| >= 2 then Prepend(Unescaped(s[1]), InDouble(s[2..]))
    else if s[0] == '\"' then if |s| == 1 || Blank(s[1]) then Some(("", s[1..])) else None
    else Prepend(s[0], InDouble(s[1..]))
  }

  function InSingle(s: string): Option<(string, string)>
    decreases |s|
  {
    if s == "" then None
    else if s[0] == '\\' && |s| >= 2 && s[1] == '\'' then Prepend('\'', InSingle(s[2..]))
    else if s[0] == '\'' then if |s| == 1 || Blank(s[1]) then Some(("", s[1..])) else None
    else Prepend(s[0], InSingle(s[1..]))
  }

  /** One token, from its first character on. */
  function Token(s: string): Option<(string, string)>
    decreases |s|
  {
    if s == "" || Blank(s[0]) then Some(("", s))
    else if s[0] == '\"' then InDouble(s[1..])
    else if s[0] == '\'' then InSingle(s[1..])
    else Prepend(s[0], Token(s[1..]))
  }

  lemma {:induction false} QuotedShrinks(s: string)
    ensures InDouble(s).Some? ==> |InDouble(s).value.1| < |s|
    ensures InSingle(s).Some? ==> |InSingle(s).value.1| < |s|
    decreases |s|
  {
    if s != "" {
      QuotedShrinks(s[1..]);
      if |s| >= 2 { QuotedShrinks(s[2..]); }
      if |s| >= 4 { QuotedShrinks(s[4..]); }
    }
  }

  lemma {:induction false} TokenShrinks(s: string)
    ensures Token(s).Some? ==> |Token(s).value.1| <= |s|
    ensures Token(s).Some? && s != "" && !Blank(s[0]) ==> |Token(s).value.1| < |s|
    decreases |s|
  {
    if s != "" && !Blank(s[0]) {
      QuotedShrinks(s[1..]);
      TokenShrinks(s[1..]);
    }
  }

  /** The arguments of a config line. */
  function Tokens(s: string): Option<seq<string>>
    decreases |s|
  {
    if s == "" then Some([])
    else if Blank(s[0]) then Tokens(s[1..])
    else
      TokenShrinks(s);
      var t := Token(s);
      if t.None? then None else
      var more := Tokens(t.value.1);
      if more.None? then None else Some([t.value.0] + more.value)
  }

  /** Quoting loses nothing: decoding a quoted string gives it back, whatever it holds. */
  lemma {:induction false} QuotedDecodes(raw: string, rest: string)
    requires rest == "" || Blank(rest[0])
    ensures InDouble(Escape(raw) + ['\"'] + rest) == Some((raw, rest))
  {
    var s := Escape(raw) + ['\"'] + rest;
    if raw == "" {
      assert s == ['\"'] + rest && s[1..] == rest;
    } else {
      QuotedDecodes(raw[1..], rest);
      var tail := Escape(raw[1..]) + ['\"'] + rest;
      if Special(raw[0]) {
        assert s == ['\\', raw[0]] + tail && s[2..] == tail;
      } else {
        assert s == [raw[0]] + tail && s[1..] == tail;
      }
      assert [raw[0]] + raw[1..] == raw;
    }
  }

  /** A word the tokenizer takes as it is and the substitution leaves alone. */
  predicate PlainWord(w: string) {
    w != "" && forall i :: 0 <= i < |w| ==> !Blank(w[i]) && w[i] != '\"' && w[i] != '\'' && w[i] != '$'
  }

  function Words(ws: seq<string>): string {
    if ws == [] then "" else ws[0] + " " + Words(ws[1..])
  }

  lemma {:induction false} WordTokenizes(w: string, rest: string)
    requires forall i :: 0 <= i < |w| ==> !Blank(w[i]) && w[i] != '\"' && w[i] != '\''
    requires rest == "" || Blank(rest[0])
    ensures Token(w + rest) == Some((w, rest))
  {
    if w == "" {
      assert w + rest == rest;
    } else {
      assert (w + rest)[1..] == w[1..] + rest;
      WordTokenizes(w[1..], rest);
      assert [w[0]] + w[1..] == w;
    }
  }

  lemma {:induction false} DirectiveTokenizes(ws: seq<string>, raw: string)
    requires forall i :: 0 <= i < |ws| ==> PlainWord(ws[i])
    ensures Tokens(Words(ws) + Quoted(raw)) == Some(ws + [raw])
  {
    if ws == [] {
      QuotedDecodes(raw, "");
      var s := Quoted(raw);
      assert Words(ws) + s == s;
      assert s[1..] == Escape(raw) + ['\"'] + "";
      assert Token(s) == Some((raw, "")) && Tokens("") == Some([]);
      assert [raw] + [] == ws + [raw];
    } else {
      var rest := " " + (Words(ws[1..]) + Quoted(raw));
      assert Words(ws) + Quoted(raw) == ws[0] + rest;
      WordTokenizes(ws[0], rest);
      DirectiveTokenizes(ws[1..], raw);
      assert rest[1..] == Words(ws[1..]) + Quoted(raw);
      assert Tokens(rest) == Tokens(rest[1..]);
      assert [ws[0]] + (ws[1..] + [raw]) == ws + [raw];
    }
  }

  lemma {:induction false} ReplaceAtEnd(front: string, ph: string, pass: string)
    requires ph != "" && ph[0] !in front
    ensures ReplaceAll(front + ph, ph, pass) == front + pass
  {
    if front == "" {
      assert front + ph == ph && ph[|ph|..] == "";
      assert pass + "" == front + pass;
    } else {
      assert (front + ph)[1..] == front[1..] + ph;
      assert (front + ph)[0] != ph[0];
      ReplaceAtEnd(front[1..], ph, pass);
      assert [front[0]] + front[1..] == front;
    }
  }

  lemma {:induction false} WordsHaveNoDollar(ws: seq<string>)
    requires forall i :: 0 <= i < |ws| ==> PlainWord(ws[i])
    ensures '$' !in Words(ws)
  {
    if ws != [] { WordsHaveNoDollar(ws[1..]); }
  }

  /** The password round trip: a directive of plain words and the placeholder, substituted and
      parsed by the config tokenizer, yields the words and exactly the original password. */
  lemma PasswordSurvivesTheConfig(ws: seq<string>, raw: string)
    requires forall i :: 0 <= i < |ws| ==> PlainWord(ws[i])
    ensures Tokens(ReplaceAll(Words(ws) + PH, PH, Quoted(raw))) == Some(ws + [raw])
  {
    WordsHaveNoDollar(ws);
    ReplaceAtEnd(Words(ws), PH, Quoted(raw));
    DirectiveTokenizes(ws, raw);
  }

  // ------------------------------------------------------------------ the placeholder guard

  predicate Contains(s: string, p: string)
    decreases |s|
  {
    p <= s || (s != "" && Contains(s[1..], p))
  }

  /** A character foreign to the pattern separates its occurrences. */
  lemma {:induction false} ContainsAround(a: string, c: char, b: string, p: string)
    requires p != "" && c !in p
    ensures Contains(a + [c] + b, p) <==> Contains(a, p) || Contains(b, p)
    decreases |a|
  {
    var s := a + [c] + b;
    if a == "" {
      assert s[0] == c && s[1..] == b;
    } else {
      assert s[1..] == a[1..] + [c] + b;
      ContainsAround(a[1..], c, b, p);
      assert s[|a|] == c;
      assert p <= s ==> forall i :: 0 <= i < |p| ==> p[i] == s[i];
    }
  }

  lemma {:induction false} PrefixOfEscape(p: string, raw: string)
    requires forall i :: 0 <= i < |p| ==> !Special(p[i])
    ensures p <= Escape(raw) <==> p <= raw
  {
    if p != "" && raw != "" && !Special(raw[0]) {
      PrefixOfEscape(p[1..], raw[1..]);
      assert Escape(raw)[1..] == Escape(raw[1..]);
      assert p == [p[0]] + p[1..] && raw == [raw[0]] + raw[1..];
    }
  }

  lemma {:induction false} ContainsEscape(raw: string, p: string)
    requires Ordinary(p)
    ensures Contains(Escape(raw), p) <==> Contains(raw, p)
  {
    if raw != "" {
      ContainsEscape(raw[1..], p);
      PrefixOfEscape(p, raw);
      var tail := Escape(raw[1..]);
      if Special(raw[0]) {
        ContainsEscapedChar(raw[0], tail, p);
      } else {
        assert Escape(raw)[1..] == tail;
      }
    }
  }

  lemma ContainsEscapedChar(c: char, tail: string, p: string)
    requires Ordinary(p) && Special(c)
    ensures Contains(['\\', c] + tail, p) <==> Contains(tail, p)
  {
    assert ['\\', c] + tail == "" + ['\\'] + ([c] + tail) && [c] + tail == "" + [c] + tail;
    ContainsAround("", '\\', [c] + tail, p);
    ContainsAround("", c, tail, p);
  }

  lemma {:induction false} PrefixOfReplaced(p: string, line: string, ph: string, raw: string)
    requires ph != "" && '\"' !in p && p <= ReplaceAll(line, ph, Quoted(raw))
    ensures p <= line
  {
    if p != "" && line != "" {
      var out := ReplaceAll(line, ph, Quoted(raw));
      assert Quoted(raw)[0] == '\"' && p[0] == out[0];
      assert out[1..] == ReplaceAll(line[1..], ph, Quoted(raw));
      PrefixOfReplaced(p[1..], line[1..], ph, raw);
      assert p == [p[0]] + p[1..] && line == [line[0]] + line[1..];
    }
  }

  predicate Ordinary(ph: string) { ph != "" && '\"' !in ph && '\\' !in ph }

  lemma {:induction false} SurvivesExactlyWhen(line: string, ph: string, raw: string)
    requires Ordinary(ph)
    ensures Contains(ReplaceAll(line, ph, Quoted(raw)), ph) <==> Contains(line, ph) && Contains(raw, ph)
    decreases |line|
  {
    if line != "" {
      if ph <= line {
        var rest := ReplaceAll(line[|ph|..], ph, Quoted(raw));
        SurvivesExactlyWhen(line[|ph|..], ph, raw);
        QuotedContains(raw, rest, ph);
      } else {
        var out := ReplaceAll(line, ph, Quoted(raw));
        SurvivesExactlyWhen(line[1..], ph, raw);
        assert out[1..] == ReplaceAll(line[1..], ph, Quoted(raw));
        if ph <= out {
          PrefixOfReplaced(ph, line, ph, raw);
        }
      }
    }
  }

  lemma QuotedContains(raw: string, rest: string, ph: string)
    requires Ordinary(ph)
    ensures Contains(Quoted(raw) + rest, ph) <==> Contains(raw, ph) || Contains(rest, ph)
  {
    var inner := Escape(raw) + ['\"'] + rest;
    assert Quoted(raw) + rest == "" + ['\"'] + inner;
    ContainsAround("", '\"', inner, ph);
    ContainsAround(Escape(raw), '\"', rest, ph);
    ContainsEscape(raw, ph);
  }

  /** A placeholder survives the substitution of a line exactly when the line had one and the
      password itself contains the placeholder. */
  lemma PlaceholderSurvivesExactlyWhen(line: string, raw: string)
    ensures Contains(ReplaceAll(line, PH, Quoted(raw)), PH) <==> Contains(line, PH) && Contains(raw, PH)
  {
    SurvivesExactlyWhen(line, PH, raw);
  }

  /** The redis init script up to the guard: substitution when a password is there, then refusal
      when any line still holds the placeholder. */
  method Prepare(template: seq<string>, raw: string) returns (conf: seq<string>, boots: bool)
    ensures |conf| == |template|
    ensures forall i :: 0 <= i < |conf| ==>
      conf[i] == if raw == "" then template[i] else ReplaceAll(template[i], PH, Quoted(raw))
    ensures boots <==> forall i :: 0 <= i < |template| ==> Contains(template[i], PH) ==> raw != "" && !Contains(raw, PH)
  {
    conf := template;
    if raw != "" {
      conf := [];
      var pass := Quote(raw);
      for i := 0 to |template|
        invariant |conf| == i && forall j :: 0 <= j < i ==> conf[j] == ReplaceAll(template[j], PH, pass)
      {
        var line := Substitute(template[i], PH, pass);
        conf := conf + [line];
      }
    }
    boots := true;
    for i := 0 to |conf|
      invariant boots <==> forall j :: 0 <= j < i ==> !Contains(conf[j], PH)
    {
      boots := boots && !Contains(conf[i], PH);
    }
    forall i | 0 <= i < |conf|
      ensures Contains(conf[i], PH) <==> Contains(template[i], PH) && (raw == "" || Contains(raw, PH))
    {
      PlaceholderSurvivesExactlyWhen(template[i], raw);
    }
  }

  lemma PlaceholderIsPlain()
    ensures ValidPassword(PH)
  {
    hide PlainChar;
    forall i | 0 <= i < |PH| ensures PlainChar(PH[i]) {
      assert '#' <= PH[i] <= '}' && PH[i] != '\\';
      AsciiIsPlain(PH[i]);
    }
  }

  lemma AsciiIsPlain(c: char)
    requires '#' <= c <= '}' && c != '\\'
    ensures PlainChar(c)
  {
  }

  /** A password the validator accepts, and that no node configured with one will boot with. */
  lemma AcceptedPasswordThatCannotBoot(line: string) returns (raw: string)
    requires Contains(line, PH)
    ensures raw == "${REDIS_PASSWORD}" && ValidPassword(raw) && Contains(raw, PH)
    ensures Contains(ReplaceAll(line, PH, Quoted(raw)), PH)
  {
    raw := PH;
    PlaceholderIsPlain();
    PlaceholderSurvivesExactlyWhen(line, raw);
  }

  // ------------------------------------------------------------------ credential lines

  function SkipBlanks(s: string): string {
    if s != "" && (s[0] == ' ' || s[0] == '\t') then SkipBlanks(s[1..]) else s
  }

  function TakeWord(s: string): string {
    if s == "" || s[0] == ' ' || s[0] == '\t' then "" else [s[0]] + TakeWord(s[1..])
  }

  /** awk's $1, and $2 with n == 1. */
  function Field(s: string, n: nat): string
    decreases n
  {
    var t := SkipBlanks(s);
    if n == 0 then TakeWord(t)
    else if |TakeWord(t)| <= |t| then Field(t[|TakeWord(t)|..], n - 1) else ""
  }

  predicate Gap(s: string) { forall i :: 0 <= i < |s| ==> s[i] == ' ' || s[i] == '\t' }

  /** The end of the line, or a blank. */
  predicate Cut(s: string) { s == "" || s[0] == ' ' || s[0] == '\t' }

  predicate Unbroken(w: string) { w != "" && ' ' !in w && '\t' !in w }

  lemma {:induction false} SkipBlanksSkips(s: string) returns (blanks: string)
    ensures Gap(blanks) && s == blanks + SkipBlanks(s) && (SkipBlanks(s) == "" || !Cut(SkipBlanks(s)))
  {
    blanks := "";
    if s != "" && (s[0] == ' ' || s[0] == '\t') {
      blanks := SkipBlanksSkips(s[1..]);
      blanks := [s[0]] + blanks;
      assert s == [s[0]] + s[1..];
    }
  }

  lemma {:induction false} TakeWordTakes(s: string)
    ensures TakeWord(s) <= s && ' ' !in TakeWord(s) && '\t' !in TakeWord(s) && Cut(s[|TakeWord(s)|..])
  {
    if s != "" && s[0] != ' ' && s[0] != '\t' {
      TakeWordTakes(s[1..]);
      assert s == [s[0]] + s[1..];
    }
  }

  lemma {:induction false} SkipsTo(blanks: string, t: string)
    requires Gap(blanks) && (t == "" || !Cut(t))
    ensures SkipBlanks(blanks + t) == t
  {
    if blanks == "" {
      assert blanks + t == t;
    } else {
      assert (blanks + t)[1..] == blanks[1..] + t;
      SkipsTo(blanks[1..], t);
    }
  }

  lemma {:induction false} TakesUpTo(w: string, rest: string)
    requires ' ' !in w && '\t' !in w && Cut(rest)
    ensures TakeWord(w + rest) == w && (w + rest)[|w|..] == rest
  {
    if w == "" {
      assert w + rest == rest;
    } else {
      assert (w + rest)[1..] == w[1..] + rest;
      TakesUpTo(w[1..], rest);
    }
  }

  /** The line begins with this word: blanks, the word, and a blank or nothing after it. */
  predicate BeginsWith(line: string, w: string, blanks: string, rest: string) {
    line == blanks + (w + rest) && Gap(blanks) && Cut(rest)
  }

  lemma FirstWordExactlyWhen(line: string, w: string)
    requires Unbroken(w)
    ensures Field(line, 0) == w <==> exists blanks, rest :: BeginsWith(line, w, blanks, rest)
  {
    if Field(line, 0) == w {
      var blanks := SkipBlanksSkips(line);
      TakeWordTakes(SkipBlanks(line));
      var t := SkipBlanks(line);
      assert t == w + t[|w|..];
      assert BeginsWith(line, w, blanks, t[|w|..]);
    }
    if blanks, rest :| BeginsWith(line, w, blanks, rest) {
      SecondAfterFirst(line, w, blanks, rest);
    }
  }

  lemma SecondAfterFirst(line: string, w: string, blanks: string, rest: string)
    requires Unbroken(w) && BeginsWith(line, w, blanks, rest)
    ensures Field(line, 0) == w && Field(line, 1) == Field(rest, 0)
  {
    SkipsTo(blanks, w + rest);
    TakesUpTo(w, rest);
  }

  /** The line begins with these two words. */
  lemma TwoWordsExactlyWhen(line: string, w: string, v: string)
    requires Unbroken(w) && Unbroken(v)
    ensures Field(line, 0) == w && Field(line, 1) == v <==>
      exists b1, b2, tail :: BeginsWith(line, w, b1, b2 + (v + tail)) && b2 != "" && Gap(b2) && Cut(tail)
  {
    FirstWordExactlyWhen(line, w);
    if Field(line, 0) == w && Field(line, 1) == v {
      var b1, rest :| BeginsWith(line, w, b1, rest);
      SecondAfterFirst(line, w, b1, rest);
      FirstWordExactlyWhen(rest, v);
      var b2, tail :| BeginsWith(rest, v, b2, tail);
      assert (v + tail)[0] == v[0];
    }
    if b1, b2, tail :| BeginsWith(line, w, b1, b2 + (v + tail)) && b2 != "" && Gap(b2) && Cut(tail) {
      SecondAfterFirst(line, w, b1, b2 + (v + tail));
      SecondAfterFirst(b2 + (v + tail), v, b2, tail);
    }
  }

  predicate DefaultUser(line: string) { Field(line, 0) == "user" && Field(line, 1) == "default" }

  predicate SentinelCredential(line: string) {
    || Field(line, 0) == "requirepass"
    || DefaultUser(line)
    || (Field(line, 0) == "sentinel" && (Field(line, 1) == "auth-pass" || Field(line, 1) == "sentinel-pass"))
  }

  function Keep(lines: seq<string>, drop: string -> bool): seq<string> {
    if lines == [] then [] else
    var last := lines[|lines| - 1];
    Keep(lines[..|lines| - 1], drop) + (if drop(last) then [] else [last])
  }

  /** `kept` is `lines` without what is dropped: its lines stand in `lines` at these positions, in this
      order, and the positions left out are exactly those of dropped lines. */
  ghost predicate Thinned(lines: seq<string>, kept: seq<string>, positions: seq<nat>, drop: string -> bool) {
    && |positions| == |kept|
    && (forall j :: 0 <= j < |kept| ==> positions[j] < |lines| && kept[j] == lines[positions[j]])
    && (forall i, j :: 0 <= i < j < |positions| ==> positions[i] < positions[j])
    && (forall i :: 0 <= i < |lines| ==> (i in positions <==> !drop(lines[i])))
  }

  lemma ThinnedOn(lines: seq<string>, kept: seq<string>, positions: seq<nat>, drop: string -> bool, x: string)
    requires Thinned(lines, kept, positions, drop)
    ensures Thinned(lines + [x], if drop(x) then kept else kept + [x],
                    if drop(x) then positions else positions + [|lines|], drop)
  {
    assert forall j :: 0 <= j < |positions| ==> positions[j] != |lines|;
    assert |lines| in positions + [|lines|];
    assert forall i: nat :: i != |lines| ==> (i in positions + [|lines|] <==> i in positions);
  }

  lemma KeepOn(lines: seq<string>, drop: string -> bool, x: string)
    ensures Keep(lines + [x], drop) == if drop(x) then Keep(lines, drop) else Keep(lines, drop) + [x]
  {
    assert (lines + [x])[..|lines|] == lines;
  }

  lemma NothingThinned(drop: string -> bool)
    ensures Thinned([], Keep([], drop), [], drop)
  {
  }

  lemma KeepThinsOn(lines: seq<string>, drop: string -> bool, positions: seq<nat>, x: string) returns (more: seq<nat>)
    requires Thinned(lines, Keep(lines, drop), positions, drop)
    ensures Thinned(lines + [x], Keep(lines + [x], drop), more, drop)
  {
    hide Keep, Thinned;
    ThinnedOn(lines, Keep(lines, drop), positions, drop, x);
    KeepOn(lines, drop, x);
    more := if drop(x) then positions else positions + [|lines|];
  }

  lemma {:induction false} KeepThins(lines: seq<string>, drop: string -> bool) returns (positions: seq<nat>)
    ensures Thinned(lines, Keep(lines, drop), positions, drop)
  {
    hide Keep, Thinned;
    if lines == [] {
      NothingThinned(drop);
      positions := [];
    } else {
      var init, last := lines[..|lines| - 1], lines[|lines| - 1];
      positions := KeepThins(init, drop);
      positions := KeepThinsOn(init, drop, positions, last);
      assert init + [last] == lines;
    }
  }

  /** Every line that is not dropped is kept as often as it was there, and no other. */
  lemma {:induction false} KeepCounts(lines: seq<string>, drop: string -> bool, x: string)
    ensures multiset(Keep(lines, drop))[x] == if drop(x) then 0 else multiset(lines)[x]
  {
    if lines != [] {
      KeepCounts(lines[..|lines| - 1], drop, x);
      assert lines == lines[..|lines| - 1] + [lines[|lines| - 1]];
    }
  }

  /** A line of two words and a rest. */
  function Line(w: string, v: string, rest: string): string { w + " " + (v + " " + rest) }

  function Only(lines: seq<string>, pick: string -> bool): seq<string> {
    if lines == [] then [] else
    var last := lines[|lines| - 1];
    Only(lines[..|lines| - 1], pick) + (if pick(last) then [last] else [])
  }

  /** The default-user line; `credential` is "#<sha256>" or "nopass". */
  function DefaultUserLine(credential: string): string {
    Line("user", "default", "on " + credential + " ~* &* +@all")
  }

  function SentinelLines(master: string, raw: string): seq<string> {
    if raw == "" then []
    else [Line("sentinel", "auth-pass", master + " " + Quoted(raw)), Line("sentinel", "sentinel-pass", Quoted(raw)),
          "requirepass" + " " + Quoted(raw)]
  }

  function RebuiltAcl(lines: seq<string>, credential: string): seq<string> {
    Keep(lines, DefaultUser) + [DefaultUserLine(credential)]
  }

  function RebuiltSentinel(lines: seq<string>, master: string, raw: string): seq<string> {
    Keep(lines, SentinelCredential) + SentinelLines(master, raw)
  }

  lemma CredentialLinesAre(credential: string, master: string, raw: string)
    ensures DefaultUserLine(credential) == "user default on " + credential + " ~* &* +@all"
    ensures SentinelLines(master, raw) == if raw == "" then [] else
      ["sentinel auth-pass " + master + " " + Quoted(raw), "sentinel sentinel-pass " + Quoted(raw),
       "requirepass " + Quoted(raw)]
  {
    assert "user" + " " + ("default" + " " + ("on " + credential + " ~* &* +@all")) ==
      "user default on " + credential + " ~* &* +@all";
    assert "sentinel" + " " + ("auth-pass" + " " + (master + " " + Quoted(raw))) ==
      "sentinel auth-pass " + master + " " + Quoted(raw);
    assert "sentinel" + " " + ("sentinel-pass" + " " + Quoted(raw)) == "sentinel sentinel-pass " + Quoted(raw);
    assert "requirepass" + " " + Quoted(raw) == "requirepass " + Quoted(raw);
  }

  /** The ACL file: every line but a default user's as it was and in its place, and one for the
      default user last. */
  method RebuildAcl(lines: seq<string>, credential: string) returns (out: seq<string>, ghost positions: seq<nat>)
    ensures out == RebuiltAcl(lines, credential)
    ensures out != [] && out[|out| - 1] == "user default on " + credential + " ~* &* +@all"
    ensures Thinned(lines, out[..|out| - 1], positions, l => Field(l, 0) == "user" && Field(l, 1) == "default")
    ensures forall x :: x in lines && !(Field(x, 0) == "user" && Field(x, 1) == "default") ==> x in out
  {
    hide Field;
    out := [];
    for i := 0 to |lines|
      invariant out == Keep(lines[..i], DefaultUser)
    {
      assert lines[..i + 1] == lines[..i] + [lines[i]];
      KeepOn(lines[..i], DefaultUser, lines[i]);
      hide Keep;
      if Field(lines[i], 0) == "user" && Field(lines[i], 1) == "default" {
        continue;
      }
      out := out + [lines[i]];
    }
    assert lines[..|lines|] == lines;
    positions := KeepThins(lines, DefaultUser);
    CredentialLinesAre(credential, "", "");
    out := out + [DefaultUserLine(credential)];
    hide Keep, Line;
    assert out[..|out| - 1] == Keep(lines, DefaultUser);
  }

  /** The awk filter over the sentinel state. */
  method DropCredentials(lines: seq<string>) returns (kept: seq<string>, ghost positions: seq<nat>)
    ensures kept == Keep(lines, SentinelCredential)
    ensures Thinned(lines, kept, positions, l =>
      || Field(l, 0) == "requirepass" || (Field(l, 0) == "user" && Field(l, 1) == "default")
      || (Field(l, 0) == "sentinel" && Field(l, 1) == "auth-pass")
      || (Field(l, 0) == "sentinel" && Field(l, 1) == "sentinel-pass"))
  {
    hide Field;
    kept := [];
    for i := 0 to |lines|
      invariant kept == Keep(lines[..i], SentinelCredential)
    {
      assert lines[..i + 1] == lines[..i] + [lines[i]];
      KeepOn(lines[..i], SentinelCredential, lines[i]);
      hide Keep;
      if Field(lines[i], 0) == "requirepass" { continue; }
      if Field(lines[i], 0) == "user" && Field(lines[i], 1) == "default" { continue; }
      if Field(lines[i], 0) == "sentinel" &&
        (Field(lines[i], 1) == "auth-pass" || Field(lines[i], 1) == "sentinel-pass") {
        continue;
      }
      kept := kept + [lines[i]];
    }
    assert lines[..|lines|] == lines;
    positions := KeepThins(lines, SentinelCredential);
  }

  /** The sentinel state: every line but the credentials as it was and in its place, and the three
      credential lines of the password last, or none when it is empty. */
  method RebuildSentinel(lines: seq<string>, master: string, raw: string)
    returns (out: seq<string>, ghost kept: seq<string>, ghost positions: seq<nat>)
    ensures out == RebuiltSentinel(lines, master, raw)
    ensures out == kept + if raw == "" then [] else
      ["sentinel auth-pass " + master + " " + Quoted(raw), "sentinel sentinel-pass " + Quoted(raw),
       "requirepass " + Quoted(raw)]
    ensures Thinned(lines, kept, positions, l =>
      || Field(l, 0) == "requirepass" || (Field(l, 0) == "user" && Field(l, 1) == "default")
      || (Field(l, 0) == "sentinel" && Field(l, 1) == "auth-pass")
      || (Field(l, 0) == "sentinel" && Field(l, 1) == "sentinel-pass"))
  {
    CredentialLinesAre("", master, raw);
    hide Thinned, Field, Keep, Line, Quoted;
    var pass := Quote(raw);
    out, positions := DropCredentials(lines);
    kept := out;
    if raw != "" {
      out := out + [Line("sentinel", "auth-pass", master + " " + pass)];
      out := out + [Line("sentinel", "sentinel-pass", pass)];
      out := out + ["requirepass" + " " + pass];
    }
  }

  lemma {:induction false} KeepConcat(a: seq<string>, b: seq<string>, drop: string -> bool)
    ensures Keep(a + b, drop) == Keep(a, drop) + Keep(b, drop)
    decreases |b|
  {
    if b == [] {
      assert a + b == a;
    } else {
      assert (a + b)[..|a + b| - 1] == a + b[..|b| - 1];
      KeepConcat(a, b[..|b| - 1], drop);
    }
  }

  lemma {:induction false} OnlyConcat(a: seq<string>, b: seq<string>, pick: string -> bool)
    ensures Only(a + b, pick) == Only(a, pick) + Only(b, pick)
    decreases |b|
  {
    if b == [] {
      assert a + b == a;
    } else {
      assert (a + b)[..|a + b| - 1] == a + b[..|b| - 1];
      OnlyConcat(a, b[..|b| - 1], pick);
    }
  }

  lemma {:induction false} KeepTwice(lines: seq<string>, drop: string -> bool)
    ensures Keep(Keep(lines, drop), drop) == Keep(lines, drop)
    ensures Only(Keep(lines, drop), drop) == []
  {
    if lines != [] {
      var init, last := lines[..|lines| - 1], lines[|lines| - 1];
      KeepTwice(init, drop);
      var one := if drop(last) then [] else [last];
      KeepConcat(Keep(init, drop), one, drop);
      OnlyConcat(Keep(init, drop), one, drop);
    }
  }

  lemma {:induction false} KeepNone(lines: seq<string>, drop: string -> bool)
    requires forall i :: 0 <= i < |lines| ==> drop(lines[i])
    ensures Keep(lines, drop) == [] && Only(lines, drop) == lines
  {
    if lines != [] { KeepNone(lines[..|lines| - 1], drop); }
  }

  /** Replacing the lines of one kind: the last write wins, the other lines stay verbatim and in
      order, and exactly the new lines of that kind are left. */
  lemma RebuildLaws(lines: seq<string>, drop: string -> bool, added: seq<string>)
    requires forall i :: 0 <= i < |added| ==> drop(added[i])
    ensures Keep(Keep(lines, drop) + added, drop) == Keep(lines, drop)
    ensures Only(Keep(lines, drop) + added, drop) == added
  {
    KeepConcat(Keep(lines, drop), added, drop);
    OnlyConcat(Keep(lines, drop), added, drop);
    KeepTwice(lines, drop);
    KeepNone(added, drop);
  }

  /** The other lines are as often there as before. */
  lemma RebuildCounts(lines: seq<string>, drop: string -> bool, added: seq<string>, x: string)
    requires (forall i :: 0 <= i < |added| ==> drop(added[i])) && !drop(x)
    ensures multiset(Keep(lines, drop) + added)[x] == multiset(lines)[x]
  {
    KeepCounts(lines, drop, x);
    assert x !in added;
    hide Keep;
  }

  /** A new line of the dropped kind is there as often as it was added. */
  lemma AddedCounts(lines: seq<string>, drop: string -> bool, added: seq<string>, x: string)
    requires drop(x)
    ensures multiset(Keep(lines, drop) + added)[x] == multiset(added)[x]
  {
    KeepCounts(lines, drop, x);
    hide Keep;
  }

  lemma {:induction false} TakeUnbroken(w: string, rest: string)
    requires ' ' !in w && '\t' !in w
    ensures TakeWord(w + " " + rest) == w
  {
    if w != "" {
      assert (w + " " + rest)[1..] == w[1..] + " " + rest;
      TakeUnbroken(w[1..], rest);
    }
  }

  lemma FieldsOf(w: string, v: string, rest: string)
    requires Unbroken(w) && Unbroken(v)
    ensures Field(Line(w, v, rest), 0) == w && Field(Line(w, v, rest), 1) == v
  {
    var tail := v + " " + rest;
    var s := w + " " + tail;
    TakeUnbroken(w, tail);
    TakeUnbroken(v, rest);
    assert s[|w|..] == " " + tail && (" " + tail)[1..] == tail;
    assert SkipBlanks(s) == s && SkipBlanks(tail) == tail;
    assert SkipBlanks(s[|w|..]) == tail;
  }

  lemma RenderedLinesAreCredentials(master: string, raw: string, credential: string)
    ensures DefaultUser(DefaultUserLine(credential))
    ensures forall i :: 0 <= i < |SentinelLines(master, raw)| ==> SentinelCredential(SentinelLines(master, raw)[i])
  {
    FieldsOf("user", "default", "on " + credential + " ~* &* +@all");
    FieldsOf("sentinel", "auth-pass", master + " " + Quoted(raw));
    FieldsOf("sentinel", "sentinel-pass", Quoted(raw));
    TakeUnbroken("requirepass", Quoted(raw));
  }

  /** The ACL file: rebuilding with one credential and then another equals rebuilding once with
      the last, every other account stays as it was, and there is exactly one default user. */
  lemma AclRebuildLaws(lines: seq<string>, c1: string, c2: string)
    ensures forall x :: !(Field(x, 0) == "user" && Field(x, 1) == "default") ==>
      multiset(RebuiltAcl(lines, c1))[x] == multiset(lines)[x]
    ensures multiset(RebuiltAcl(lines, c1))["user default on " + c1 + " ~* &* +@all"] == 1
    ensures RebuiltAcl(RebuiltAcl(lines, c1), c2) == RebuiltAcl(lines, c2)
    ensures Keep(RebuiltAcl(lines, c1), DefaultUser) == Keep(lines, DefaultUser)
    ensures Only(RebuiltAcl(lines, c1), DefaultUser) == [DefaultUserLine(c1)]
  {
    RenderedLinesAreCredentials("", "", c1);
    CredentialLinesAre(c1, "", "");
    hide Keep, Only, Field, Line, DefaultUserLine;
    RebuildLaws(lines, DefaultUser, [DefaultUserLine(c1)]);
    AddedCounts(lines, DefaultUser, [DefaultUserLine(c1)], DefaultUserLine(c1));
    forall x | !DefaultUser(x) ensures multiset(RebuiltAcl(lines, c1))[x] == multiset(lines)[x] {
      RebuildCounts(lines, DefaultUser, [DefaultUserLine(c1)], x);
    }
  }

  /** The sentinel state: likewise, with exactly the three credential lines of the password, or
      none of them when it is empty. */
  lemma SentinelRebuildLaws(lines: seq<string>, master: string, p1: string, p2: string)
    ensures forall x :: !SentinelCredential(x) ==>
      multiset(RebuiltSentinel(lines, master, p1))[x] == multiset(lines)[x]
    ensures RebuiltSentinel(RebuiltSentinel(lines, master, p1), master, p2) == RebuiltSentinel(lines, master, p2)
    ensures Keep(RebuiltSentinel(lines, master, p1), SentinelCredential) == Keep(lines, SentinelCredential)
    ensures Only(RebuiltSentinel(lines, master, p1), SentinelCredential) == SentinelLines(master, p1)
  {
    RenderedLinesAreCredentials(master, p1, "");
    hide Keep, Only, SentinelCredential, SentinelLines;
    RebuildLaws(lines, SentinelCredential, SentinelLines(master, p1));
    forall x | !SentinelCredential(x) ensures multiset(RebuiltSentinel(lines, master, p1))[x] == multiset(lines)[x] {
      RebuildCounts(lines, SentinelCredential, SentinelLines(master, p1), x);
    }
  }
}
