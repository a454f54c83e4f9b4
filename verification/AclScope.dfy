/** What an accepted RedisUser gets: the keys, channels and commands of its account, exactly. */
module AclScope {
  import opened Basics
  import opened AclRules

  // ------------------------------------------------------------------ rules that stand

  predicate Spared(rules: seq<string>, undoes: string -> bool) {
    forall j :: 0 <= j < |rules| ==> !undoes(rules[j])
  }

  /** A rule of the list says so, and no later one undoes it. */
  predicate Stands(rules: seq<string>, says: string -> bool, undoes: string -> bool) {
    exists i :: 0 <= i < |rules| && says(rules[i]) && Spared(rules[i + 1..], undoes)
  }

  lemma SparedUnfolds(rules: seq<string>, undoes: string -> bool)
    requires rules != []
    ensures Spared(rules, undoes) <==> !undoes(rules[0]) && Spared(rules[1..], undoes)
  {
    assert forall j :: 0 <= j < |rules[1..]| ==> rules[1..][j] == rules[j + 1];
    assert forall j :: 0 < j < |rules| ==> rules[j] == rules[1..][j - 1];
  }

  lemma StandsUnfolds(rules: seq<string>, says: string -> bool, undoes: string -> bool)
    requires rules != []
    ensures Stands(rules, says, undoes) <==>
      Stands(rules[1..], says, undoes) || (says(rules[0]) && Spared(rules[1..], undoes))
  {
    hide Spared;
    var rest := rules[1..];
    if i :| 0 <= i < |rest| && says(rest[i]) && Spared(rest[i + 1..], undoes) {
      assert says(rules[i + 1]) && rules[i + 2..] == rest[i + 1..];
    }
    if i :| 0 <= i < |rules| && says(rules[i]) && Spared(rules[i + 1..], undoes) {
      if i > 0 {
        assert says(rest[i - 1]) && rest[i..] == rules[i + 1..];
      }
    }
  }

  // ------------------------------------------------------------------ keys and channels

  predicate Scoping(f: Field) { f == Keys || f == Channels }

  function ScopeOf(f: Field, a: Account): Scope { if f == Keys then a.keys else a.channels }

  predicate Resets(f: Field, rule: string) {
    ServerLower(rule) == if f == Keys then "resetkeys" else "resetchannels"
  }

  predicate OpensAll(f: Field, rule: string) {
    || ServerLower(rule) == (if f == Keys then "allkeys" else "allchannels")
    || rule == (if f == Keys then "~*" else "&*")
  }

  lemma ScopeKeywords(n: string)
    ensures n == "resetkeys" <==> KeywordOf(n) == Some(ResetKeys)
    ensures n == "allkeys" <==> KeywordOf(n) == Some(AllKeys)
    ensures n == "resetchannels" <==> KeywordOf(n) == Some(ResetChannels)
    ensures n == "allchannels" <==> KeywordOf(n) == Some(AllChannels)
  {
  }

  lemma ScopeByKeyword(p: Policy, t: Table, f: Field, rule: string, a: Account)
    requires Scoping(f) && ValidRule(p, f, rule) && KeywordOf(ServerLower(rule)).Some?
    ensures
      var b := ApplyKeyword(t, KeywordOf(ServerLower(rule)).value, a);
      if Resets(f, rule) then ScopeOf(f, b) == Patterns({})
      else OpensAll(f, rule) && ScopeOf(f, b) == Everything
  {
    ServerKeyword(rule);
    KeywordsStartWithLetters(Lower(rule));
    ScopeKeywords(ServerLower(rule));
    hide KeywordOf, ServerLower, Lower;
  }

  lemma ScopeByPattern(p: Policy, t: Table, f: Field, rule: string, a: Account, b: Account)
    requires Scoping(f) && ValidRule(p, f, rule) && Eval(t, rule, a) == Some(b) && KeywordOf(ServerLower(rule)).None?
    ensures !Resets(f, rule)
    ensures if OpensAll(f, rule) then ScopeOf(f, b) == Everything
      else Some(ScopeOf(f, b)) == AddPattern(ScopeOf(f, a), rule)
  {
    LowerKeepsFirst(rule);
    KeywordsStartWithLetters(Lower(rule));
    ScopeKeywords(ServerLower(rule));
    ScopeKeywords(Lower(rule));
    hide KeywordOf, ServerLower, Lower, Named;
    if 'a' <= Lower(rule)[0] <= 'z' {
      LettersAreRefused(t, rule, a);
    }
  }

  /** A rule the validator took for a keyword and the server does not is no rule at all. */
  lemma LettersAreRefused(t: Table, rule: string, a: Account)
    requires rule != "" && 'a' <= Lower(rule)[0] <= 'z' && KeywordOf(ServerLower(rule)).None?
    ensures Eval(t, rule, a) == None
  {
    hide KeywordOf, ServerLower;
    assert Lower(rule)[0] == FoldUnicode(rule[0]);
  }

  /** One accepted rule of the field. */
  lemma ScopeRule(p: Policy, t: Table, f: Field, rule: string, a: Account, b: Account)
    requires Scoping(f) && ValidRule(p, f, rule) && Eval(t, rule, a) == Some(b)
    ensures
      if Resets(f, rule) then ScopeOf(f, b) == Patterns({})
      else if OpensAll(f, rule) then ScopeOf(f, b) == Everything
      else Some(ScopeOf(f, b)) == AddPattern(ScopeOf(f, a), rule)
  {
    if KeywordOf(ServerLower(rule)).Some? {
      hide ValidRule, Resets, OpensAll, KeywordOf;
      ScopeByKeyword(p, t, f, rule, a);
    } else {
      hide Eval, ValidRule, Resets, OpensAll, KeywordOf;
      ScopeByPattern(p, t, f, rule, a, b);
    }
  }

  predicate NoReset(f: Field, rules: seq<string>) { Spared(rules, r => Resets(f, r)) }

  /** A rule opens the scope for good. */
  predicate Opens(f: Field, rules: seq<string>) {
    Stands(rules, r => OpensAll(f, r) && !Resets(f, r), r => Resets(f, r))
  }

  /** The pattern is in the list, and no later rule resets the scope. */
  predicate Names(f: Field, rules: seq<string>, pattern: string) {
    Stands(rules, r => r == pattern && !OpensAll(f, r) && !Resets(f, r), r => Resets(f, r))
  }

  lemma ScopeUnfolds(f: Field, rules: seq<string>, pattern: string)
    requires rules != []
    ensures NoReset(f, rules) <==> !Resets(f, rules[0]) && NoReset(f, rules[1..])
    ensures Opens(f, rules) <==>
      Opens(f, rules[1..]) || (OpensAll(f, rules[0]) && !Resets(f, rules[0]) && NoReset(f, rules[1..]))
    ensures Names(f, rules, pattern) <==>
      || Names(f, rules[1..], pattern)
      || (rules[0] == pattern && !Resets(f, pattern) && !OpensAll(f, pattern) && NoReset(f, rules[1..]))
  {
    hide Spared, Stands, Resets, OpensAll;
    SparedUnfolds(rules, r => Resets(f, r));
    StandsUnfolds(rules, r => OpensAll(f, r) && !Resets(f, r), r => Resets(f, r));
    StandsUnfolds(rules, r => r == pattern && !OpensAll(f, r) && !Resets(f, r), r => Resets(f, r));
  }

  predicate Listed(k: Scope, pattern: string) { k.Patterns? && pattern in k.patterns }

  /** A whole field: everything exactly if a rule opens it for good, and otherwise exactly the
      patterns that no later rule resets. */
  lemma {:induction false} ScopeExactly(p: Policy, t: Table, f: Field, rules: seq<string>, a: Account, b: Account,
                                        pattern: string)
    requires Scoping(f) && ValidRules(p, f, rules) && SetUser(t, rules, a) == Some(b)
    ensures ScopeOf(f, b).Everything? <==> Opens(f, rules) || (ScopeOf(f, a).Everything? && NoReset(f, rules))
    ensures ScopeOf(f, b).Patterns? ==>
      (pattern in ScopeOf(f, b).patterns <==>
        Names(f, rules, pattern) || (Listed(ScopeOf(f, a), pattern) && NoReset(f, rules)))
  {
    if rules != [] {
      var c := Eval(t, rules[0], a).value;
      ScopeRule(p, t, f, rules[0], a, c);
      hide Eval, ValidRule, Resets, OpensAll, Opens, Names, NoReset;
      ScopeUnfolds(f, rules, pattern);
      ScopeExactly(p, t, f, rules[1..], c, b, pattern);
    }
  }

  // ------------------------------------------------------------------ commands

  /** The rule adds this command. */
  predicate Adds(t: Table, rule: string, command: string) {
    rule != "" && rule[0] == '+' &&
      var named := Named(t, ServerLower(rule)[1..]);
      named.Some? && command in named.value
  }

  /** The rule takes it away, by name or along with all others. */
  predicate Removes(t: Table, rule: string, command: string) {
    || ServerLower(rule) == "nocommands"
    || (rule != "" && rule[0] == '-' &&
        var named := Named(t, ServerLower(rule)[1..]);
        named.Some? && command in named.value)
  }

  /** A rule adds the command, and no later one takes it away. */
  predicate Granted(t: Table, rules: seq<string>, command: string) {
    Stands(rules, r => Adds(t, r, command), r => Removes(t, r, command))
  }

  predicate Untaken(t: Table, rules: seq<string>, command: string) { Spared(rules, r => Removes(t, r, command)) }

  lemma GrantedUnfolds(t: Table, rules: seq<string>, command: string)
    requires rules != []
    ensures Granted(t, rules, command) <==>
      Granted(t, rules[1..], command) || (Adds(t, rules[0], command) && Untaken(t, rules[1..], command))
    ensures Untaken(t, rules, command) <==> !Removes(t, rules[0], command) && Untaken(t, rules[1..], command)
  {
    hide Spared, Stands, Adds, Removes;
    SparedUnfolds(rules, r => Removes(t, r, command));
    StandsUnfolds(rules, r => Adds(t, r, command), r => Removes(t, r, command));
  }

  lemma CommandKeywords(n: string)
    ensures n == "nocommands" <==> KeywordOf(n) == Some(NoCommands)
    ensures n == "allcommands" <==> KeywordOf(n) == Some(AllCommands)
    ensures n == "reset" <==> KeywordOf(n) == Some(Reset)
    ensures n != "" && (n[0] == '+' || n[0] == '-') ==> KeywordOf(n) == None
  {
  }

  lemma KeywordActs(p: Policy, t: Table, f: Field, rule: string, a: Account, command: string)
    requires ValidRule(p, f, rule) && KeywordOf(ServerLower(rule)).Some?
    ensures !Adds(t, rule, command)
    ensures command in ApplyKeyword(t, KeywordOf(ServerLower(rule)).value, a).allowed <==>
      command in a.allowed && !Removes(t, rule, command)
  {
    CommandKeywords(ServerLower(rule));
    ServerKeyword(rule);
    KeywordsStartWithLetters(Lower(rule));
    LowerKeepsFirst(rule);
    assert rule[0] != '+' && rule[0] != '-' by {
      assert ServerLower(rule)[0] == FoldAscii(rule[0]);
    }
    hide KeywordOf, ServerLower, Lower, Named, KeyPattern, CategoryRule, CommandRule;
  }

  lemma SignActs(t: Table, rule: string, a: Account, b: Account, command: string)
    requires Eval(t, rule, a) == Some(b) && KeywordOf(ServerLower(rule)).None?
    ensures command in b.allowed <==>
      Adds(t, rule, command) || (command in a.allowed && !Removes(t, rule, command))
  {
    CommandKeywords(ServerLower(rule));
    hide KeywordOf, ServerLower, Named, AddPattern;
  }

  /** One accepted rule and one command. */
  lemma CommandRuleActs(p: Policy, t: Table, f: Field, rule: string, a: Account, b: Account, command: string)
    requires ValidRule(p, f, rule) && Eval(t, rule, a) == Some(b)
    ensures command in b.allowed <==>
      Adds(t, rule, command) || (command in a.allowed && !Removes(t, rule, command))
  {
    hide ValidRule, Adds, Removes, KeywordOf, ServerLower;
    if KeywordOf(ServerLower(rule)).Some? {
      KeywordActs(p, t, f, rule, a, command);
    } else {
      hide Eval;
      SignActs(t, rule, a, b, command);
    }
  }

  lemma {:induction false} CommandsExactly(p: Policy, t: Table, f: Field, rules: seq<string>, a: Account, b: Account,
                                           command: string)
    requires ValidRules(p, f, rules) && SetUser(t, rules, a) == Some(b)
    ensures command in b.allowed <==>
      Granted(t, rules, command) || (command in a.allowed && Untaken(t, rules, command))
  {
    if rules != [] {
      var c := Eval(t, rules[0], a).value;
      CommandRuleActs(p, t, f, rules[0], a, c, command);
      hide Eval, ValidRule, Adds, Removes, Granted, Untaken;
      GrantedUnfolds(t, rules, command);
      CommandsExactly(p, t, f, rules[1..], c, b, command);
    }
  }

  // ------------------------------------------------------------------ the whole account

  lemma {:induction false} SparedConcat(xs: seq<string>, ys: seq<string>, undoes: string -> bool)
    ensures Spared(xs + ys, undoes) <==> Spared(xs, undoes) && Spared(ys, undoes)
  {
    assert forall j :: 0 <= j < |xs| ==> xs[j] == (xs + ys)[j];
    assert forall j :: 0 <= j < |ys| ==> ys[j] == (xs + ys)[|xs| + j];
  }

  lemma {:induction false} StandsConcat(xs: seq<string>, ys: seq<string>, says: string -> bool, undoes: string -> bool)
    ensures Stands(xs + ys, says, undoes) <==>
      Stands(ys, says, undoes) || (Stands(xs, says, undoes) && Spared(ys, undoes))
    decreases |xs|
  {
    if xs == [] {
      assert xs + ys == ys;
    } else {
      hide Spared;
      assert (xs + ys)[1..] == xs[1..] + ys;
      StandsUnfolds(xs + ys, says, undoes);
      StandsUnfolds(xs, says, undoes);
      SparedConcat(xs[1..], ys, undoes);
      hide Stands;
      StandsConcat(xs[1..], ys, says, undoes);
    }
  }

  /** What the confinement floor takes from every account with commands. */
  predicate Floored(t: Table, command: string) {
    || ("admin" in t.categories && command in t.categories["admin"])
    || ("dangerous" in t.categories && command in t.categories["dangerous"])
    || command in Family(t, "scan") || command in Family(t, "randomkey") || command in Family(t, "dbsize")
    || command in Family(t, "pubsub") || command in Family(t, "function") || command in Family(t, "script")
  }

  predicate TakenByOne(t: Table, names: seq<string>, command: string) {
    exists i :: 0 <= i < |names| && command in CommandsOf(t, names[i])
  }

  lemma FloorIsFloored(t: Table, command: string)
    ensures TakenByOne(t, FLOOR, command) <==> Floored(t, command)
  {
    hide Family;
    assert FLOOR[0][1..] == "admin" && FLOOR[1][1..] == "dangerous" && FLOOR[0][0] == '@' && FLOOR[1][0] == '@';
    assert FLOOR[2] == "scan" && FLOOR[3] == "randomkey" && FLOOR[4] == "dbsize" && FLOOR[5] == "pubsub";
    assert FLOOR[6] == "function" && FLOOR[7] == "script" && |FLOOR| == 8;
    assert Floored(t, command) ==>
      || command in CommandsOf(t, FLOOR[0]) || command in CommandsOf(t, FLOOR[1]) || command in CommandsOf(t, FLOOR[2])
      || command in CommandsOf(t, FLOOR[3]) || command in CommandsOf(t, FLOOR[4]) || command in CommandsOf(t, FLOOR[5])
      || command in CommandsOf(t, FLOOR[6]) || command in CommandsOf(t, FLOOR[7]);
  }

  lemma {:induction false} RemovalsTakeNoMore(t: Table, names: seq<string>, a: Account, b: Account, command: string)
    requires (forall i :: 0 <= i < |names| ==> LowerName(names[i])) && SetUser(t, Minus(names), a) == Some(b)
    ensures command in b.allowed <==> command in a.allowed && !TakenByOne(t, names, command)
  {
    if names != [] {
      var c := Eval(t, "-" + names[0], a).value;
      RemovalEvaluates(t, names[0], a, c);
      hide Eval, CommandsOf, LowerName;
      assert Minus(names)[1..] == Minus(names[1..]);
      RemovalsTakeNoMore(t, names[1..], c, b, command);
      TakenUnfolds(t, names, command);
    }
  }

  lemma TakenUnfolds(t: Table, names: seq<string>, command: string)
    requires names != []
    ensures TakenByOne(t, names, command) <==>
      command in CommandsOf(t, names[0]) || TakenByOne(t, names[1..], command)
  {
    hide CommandsOf;
    if i :| 0 <= i < |names[1..]| && command in CommandsOf(t, names[1..][i]) {
      assert command in CommandsOf(t, names[i + 1]);
    }
    if i :| 0 <= i < |names| && command in CommandsOf(t, names[i]) {
      if i > 0 { assert command in CommandsOf(t, names[1..][i - 1]); }
    }
  }

  /** The account after each field of the spec in turn. */
  lemma Stages(t: Table, s: Spec, password: string, before: Account, a: Account)
    returns (a0: Account, a1: Account, a2: Account, a3: Account, a4: Account)
    requires SetUser(t, Render(s, password), before) == Some(a)
    ensures a0 == BLANK.(enabled := s.enabled, passwords := {password})
    ensures SetUser(t, s.categories, a0) == Some(a1) && SetUser(t, s.commands, a1) == Some(a2)
    ensures SetUser(t, s.keys, a2) == Some(a3) && SetUser(t, s.channels, a3) == Some(a4)
    ensures if s.categories != [] || s.commands != [] then SetUser(t, Minus(FLOOR), a4) == Some(a) else a == a4
  {
    var opening := ["reset", ">" + password, if s.enabled then "on" else "off"];
    var floor := if s.categories != [] || s.commands != [] then Minus(FLOOR) else [];
    var r3 := s.channels + floor;
    var r2 := s.keys + r3;
    var r1 := s.commands + r2;
    OpeningForgetsThePast(t, s.enabled, password, before);
    a0 := BLANK.(enabled := s.enabled, passwords := {password});
    hide Eval;
    SetUserConcat(t, opening, s.categories + r1, before);
    SetUserConcat(t, s.categories, r1, a0);
    a1 := SetUser(t, s.categories, a0).value;
    SetUserConcat(t, s.commands, r2, a1);
    a2 := SetUser(t, s.commands, a1).value;
    SetUserConcat(t, s.keys, r3, a2);
    a3 := SetUser(t, s.keys, a2).value;
    SetUserConcat(t, s.channels, floor, a3);
    a4 := SetUser(t, s.channels, a3).value;
  }

  lemma KeysAreExact(p: Policy, t: Table, s: Spec, password: string, before: Account, a: Account, pattern: string)
    requires WellFormed(t) && ValidSpec(p, s) && SetUser(t, Render(s, password), before) == Some(a)
    ensures a.keys.Everything? <==> Opens(Keys, s.keys)
    ensures a.keys.Patterns? ==> (pattern in a.keys.patterns <==> Names(Keys, s.keys, pattern))
    ensures a.channels.Everything? <==> Opens(Channels, s.channels)
    ensures a.channels.Patterns? ==> (pattern in a.channels.patterns <==> Names(Channels, s.channels, pattern))
  {
    var a0, a1, a2, a3, a4 := Stages(t, s, password, before, a);
    hide SetUser, Opens, Names, NoReset, Grants, WellFormed, ValidRules, CommandsOf, LowerName;
    AcceptedRulesAreConfined(p, t, Categories, s.categories, a0, a1);
    AcceptedRulesAreConfined(p, t, Commands, s.commands, a1, a2);
    AcceptedRulesAreConfined(p, t, Keys, s.keys, a2, a3);
    ScopeExactly(p, t, Keys, s.keys, a2, a3, pattern);
    AcceptedRulesAreConfined(p, t, Channels, s.channels, a3, a4);
    ScopeExactly(p, t, Channels, s.channels, a3, a4, pattern);
    if s.categories != [] || s.commands != [] {
      FloorNames();
      RemovalsEvaluate(t, FLOOR, a4, a);
    }
  }

  lemma CommandsAreExact(p: Policy, t: Table, s: Spec, password: string, before: Account, a: Account, command: string)
    requires WellFormed(t) && ValidSpec(p, s) && SetUser(t, Render(s, password), before) == Some(a)
    ensures command in a.allowed <==> Granted(t, s.categories + s.commands, command) && !Floored(t, command)
  {
    var a0, a1, a2, a3, a4 := Stages(t, s, password, before, a);
    StandsConcat(s.categories, s.commands, r => Adds(t, r, command), r => Removes(t, r, command));
    if s.categories == [] && s.commands == [] {
      assert s.categories + s.commands == [];
    }
    hide SetUser, Stands, Spared, Grants, WellFormed, ValidRules, CommandsOf, LowerName, Adds, Removes, Floored;
    CommandsExactly(p, t, Categories, s.categories, a0, a1, command);
    CommandsExactly(p, t, Commands, s.commands, a1, a2, command);
    AcceptedRulesAreConfined(p, t, Keys, s.keys, a2, a3);
    AcceptedRulesAreConfined(p, t, Channels, s.channels, a3, a4);
    if s.categories != [] || s.commands != [] {
      FloorNames();
      FloorIsFloored(t, command);
      hide TakenByOne;
      RemovalsTakeNoMore(t, FLOOR, a4, a, command);
    }
  }

  /** The account ends up exactly as the spec describes: for every accepted spec, prior account and
      assignment of commands to categories, an accepted SETUSER leaves all keys (channels) open
      exactly if a rule opens them and no later one resets them, otherwise exactly the patterns no
      later rule resets; and it allows exactly the commands that a + rule adds, no later rule
      takes away, and the floor does not take. */
  lemma RenderedUserIsExact(p: Policy, t: Table, s: Spec, password: string, before: Account, a: Account)
    requires WellFormed(t) && ValidSpec(p, s) && SetUser(t, Render(s, password), before) == Some(a)
    ensures a.keys.Everything? <==> Opens(Keys, s.keys)
    ensures a.keys.Patterns? ==> forall r :: r in a.keys.patterns <==> Names(Keys, s.keys, r)
    ensures a.channels.Everything? <==> Opens(Channels, s.channels)
    ensures a.channels.Patterns? ==> forall r :: r in a.channels.patterns <==> Names(Channels, s.channels, r)
    ensures forall c :: c in a.allowed <==> Granted(t, s.categories + s.commands, c) && !Floored(t, c)
  {
    hide SetUser, Render, Opens, Names, Granted, Floored, ValidSpec, WellFormed;
    forall r ensures a.keys.Patterns? ==> (r in a.keys.patterns <==> Names(Keys, s.keys, r))
      ensures a.channels.Patterns? ==> (r in a.channels.patterns <==> Names(Channels, s.channels, r))
    {
      KeysAreExact(p, t, s, password, before, a, r);
    }
    KeysAreExact(p, t, s, password, before, a, "");
    forall c ensures c in a.allowed <==> Granted(t, s.categories + s.commands, c) && !Floored(t, c) {
      CommandsAreExact(p, t, s, password, before, a, c);
    }
  }

  // ------------------------------------------------------------------ what is accepted and taken

  /** No white space and no parenthesis. */
  predicate PlainText(s: string) {
    s != "" && forall i :: 0 <= i < |s| ==> '!' <= s[i] <= '~' && s[i] != '(' && s[i] != ')'
  }

  lemma SignedRule(sign: string, x: string)
    requires PlainText(x) && sign in ["~", "%R~", "%W~", "%RW~", "&", "-", "+", "-@", "+@"]
    ensures
      var rule, n := sign + x, Lower(sign + x);
      && |n| == |rule| && n[|sign|..] == Lower(x) && rule[0] == sign[0]
      && (forall i :: 0 <= i < |sign| ==> n[i] == FoldAscii(sign[i]))
      && KeywordOf(n) == None
      && forall i :: 0 <= i < |rule| ==> !Space(rule[i]) && rule[i] != '(' && rule[i] != ')'
  {
    var rule := sign + x;
    forall i | 0 <= i < |rule| ensures '!' <= rule[i] <= '~' && rule[i] != '(' && rule[i] != ')' {
      if i >= |sign| { assert rule[i] == x[i - |sign|]; }
    }
    KeywordsStartWithLetters(Lower(rule));
    hide KeywordOf;
  }

  lemma KeyPatternIsAccepted(p: Policy, sign: string, x: string)
    requires PlainText(x) && sign in ["~", "%R~", "%W~", "%RW~"]
    ensures ValidRule(p, Keys, sign + x)
  {
    SignedRule(sign, x);
    hide KeywordOf, Lower, PlainText, Space;
  }

  /** Any pattern without white space or parentheses is accepted as a key pattern, limited to reads or
      writes or not, and as a channel pattern. */
  lemma PatternsAreAccepted(p: Policy, x: string)
    requires PlainText(x)
    ensures ValidRule(p, Keys, "~" + x) && ValidRule(p, Keys, "%R~" + x)
    ensures ValidRule(p, Keys, "%W~" + x) && ValidRule(p, Keys, "%RW~" + x)
    ensures ValidRule(p, Channels, "&" + x)
  {
    SignedRule("&", x);
    assert ValidRule(p, Channels, "&" + x) by { hide KeywordOf, Lower, PlainText, Space; }
    hide ValidRule;
    KeyPatternIsAccepted(p, "~", x);
    KeyPatternIsAccepted(p, "%R~", x);
    KeyPatternIsAccepted(p, "%W~", x);
    KeyPatternIsAccepted(p, "%RW~", x);
  }

  /** A command or category is accepted to be added exactly if the policy has it, and accepted to be
      removed whatever it is. */
  lemma CommandsAreAcceptedExactlyWhen(p: Policy, x: string)
    requires PlainText(x) && x[0] != '@'
    ensures ValidRule(p, Commands, "-" + x)
    ensures ValidRule(p, Commands, "+" + x) <==> Lower(x) in p.allowedCommands
  {
    SignedRule("-", x);
    SignedRule("+", x);
    assert Lower("-" + x)[1] == Lower(x)[0] != '@' && Lower("+" + x)[1] == Lower(x)[0];
    hide KeywordOf, Lower, PlainText, Space;
  }

  lemma CategoriesAreAcceptedExactlyWhen(p: Policy, x: string)
    requires PlainText(x)
    ensures ValidRule(p, Categories, "-@" + x)
    ensures ValidRule(p, Categories, "+@" + x) <==>
      Lower(x) in p.categories && Lower(x) != "all" && Lower(x) != "admin" && Lower(x) != "dangerous"
  {
    SignedRule("-@", x);
    SignedRule("+@", x);
    hide KeywordOf, Lower, PlainText, Space;
  }

  /** The server knows the word, or what the rule names. */
  predicate Understood(t: Table, rule: string) {
    rule != "" &&
      (|| KeywordOf(ServerLower(rule)).Some?
       || ((rule[0] == '+' || rule[0] == '-') && Named(t, ServerLower(rule)[1..]).Some?)
       || rule[0] == '~' || rule[0] == '%' || rule[0] == '&')
  }

  /** No pattern follows a rule that opens everything. */
  predicate Harmonious(f: Field, rules: seq<string>) {
    forall i, j :: 0 <= i < j < |rules| && OpensAll(f, rules[i]) ==> OpensAll(f, rules[j]) || Resets(f, rules[j])
  }

  lemma CommandRuleIsTaken(p: Policy, t: Table, f: Field, rule: string, a: Account)
    requires (f == Categories || f == Commands) && ValidRule(p, f, rule) && Understood(t, rule)
    ensures Eval(t, rule, a).Some?
  {
    if KeywordOf(ServerLower(rule)).None? {
      PatternStart(p, f, rule);
    }
    hide KeywordOf, ServerLower, Lower, Named, ValidRule, ApplyKeyword;
  }

  lemma {:induction false} CommandsAreTaken(p: Policy, t: Table, f: Field, rules: seq<string>, a: Account)
    requires (f == Categories || f == Commands) && ValidRules(p, f, rules)
    requires forall i :: 0 <= i < |rules| ==> Understood(t, rules[i])
    ensures SetUser(t, rules, a).Some?
  {
    if rules != [] {
      CommandRuleIsTaken(p, t, f, rules[0], a);
      hide Eval, ValidRule, Understood;
      CommandsAreTaken(p, t, f, rules[1..], Eval(t, rules[0], a).value);
    }
  }

  lemma ScopeRuleIsTaken(p: Policy, t: Table, f: Field, rule: string, a: Account)
    requires Scoping(f) && ValidRule(p, f, rule) && Understood(t, rule)
    requires ScopeOf(f, a).Patterns? || OpensAll(f, rule) || Resets(f, rule)
    ensures Eval(t, rule, a).Some?
  {
    ScopeKeywords(ServerLower(rule));
    if KeywordOf(ServerLower(rule)).None? {
      PatternStart(p, f, rule);
      if rule[0] == '-' { RemovalOnlyInGrants(p, f, rule); }
    }
    hide KeywordOf, ServerLower, Lower, Named, ValidRule, ApplyKeyword;
  }

  lemma {:induction false} ScopeIsTaken(p: Policy, t: Table, f: Field, rules: seq<string>, a: Account)
    requires Scoping(f) && ValidRules(p, f, rules) && Harmonious(f, rules)
    requires forall i :: 0 <= i < |rules| ==>
      Understood(t, rules[i]) && (ScopeOf(f, a).Patterns? || OpensAll(f, rules[i]) || Resets(f, rules[i]))
    ensures SetUser(t, rules, a).Some?
  {
    if rules != [] {
      ScopeRuleIsTaken(p, t, f, rules[0], a);
      var c := Eval(t, rules[0], a).value;
      ScopeRule(p, t, f, rules[0], a, c);
      hide Eval, ValidRule, Understood, OpensAll, Resets;
      assert Harmonious(f, rules[1..]);
      ScopeIsTaken(p, t, f, rules[1..], c);
    }
  }

  lemma RemovalIsTaken(t: Table, name: string, a: Account)
    requires LowerName(name) && Named(t, name).Some?
    ensures Eval(t, "-" + name, a).Some?
  {
    var rule := "-" + name;
    assert rule[0] == '-' && rule[1..] == name;
    assert forall i :: 1 <= i < |rule| ==> rule[i] == name[i - 1];
    assert ServerLower(rule) == rule;
    KeywordsStartWithLetters(rule);
    hide KeywordOf, Named;
  }

  lemma {:induction false} RemovalsAreTaken(t: Table, names: seq<string>, a: Account)
    requires forall i :: 0 <= i < |names| ==> LowerName(names[i]) && Named(t, names[i]).Some?
    ensures SetUser(t, Minus(names), a).Some?
  {
    if names != [] {
      RemovalIsTaken(t, names[0], a);
      hide Eval, LowerName, Named;
      assert Minus(names)[1..] == Minus(names[1..]);
      RemovalsAreTaken(t, names[1..], Eval(t, "-" + names[0], a).value);
    }
  }

  /** The server takes the rendered rules of every accepted spec whose names it knows and in which no
      pattern follows a rule that opens everything; it has to know the floor's names as well. */
  lemma RenderedUserIsTaken(p: Policy, t: Table, s: Spec, password: string, before: Account)
    requires WellFormed(t) && ValidSpec(p, s) && Harmonious(Keys, s.keys) && Harmonious(Channels, s.channels)
    requires forall i :: 0 <= i < |FLOOR| ==> Named(t, FLOOR[i]).Some?
    requires forall r :: r in s.categories + s.commands + s.keys + s.channels ==> Understood(t, r)
    ensures SetUser(t, Render(s, password), before).Some?
  {
    var opening := ["reset", ">" + password, if s.enabled then "on" else "off"];
    var floor := if s.categories != [] || s.commands != [] then Minus(FLOOR) else [];
    var r3 := s.channels + floor;
    var r2 := s.keys + r3;
    var r1 := s.commands + r2;
    OpeningForgetsThePast(t, s.enabled, password, before);
    FloorNames();
    hide Eval, Understood, ValidRule, Named, LowerName, WellFormed, OpensAll, Resets, Grants;
    var a0 := BLANK.(enabled := s.enabled, passwords := {password});
    CommandsAreTaken(p, t, Categories, s.categories, a0);
    var a1 := SetUser(t, s.categories, a0).value;
    AcceptedRulesAreConfined(p, t, Categories, s.categories, a0, a1);
    CommandsAreTaken(p, t, Commands, s.commands, a1);
    var a2 := SetUser(t, s.commands, a1).value;
    AcceptedRulesAreConfined(p, t, Commands, s.commands, a1, a2);
    ScopeIsTaken(p, t, Keys, s.keys, a2);
    var a3 := SetUser(t, s.keys, a2).value;
    AcceptedRulesAreConfined(p, t, Keys, s.keys, a2, a3);
    ScopeIsTaken(p, t, Channels, s.channels, a3);
    var a4 := SetUser(t, s.channels, a3).value;
    RemovalsAreTaken(t, FLOOR, a4);
    hide SetUser, Harmonious;
    SetUserConcat(t, opening, s.categories + r1, before);
    SetUserConcat(t, s.categories, r1, a0);
    SetUserConcat(t, s.commands, r2, a1);
    SetUserConcat(t, s.keys, r3, a2);
    SetUserConcat(t, s.channels, floor, a3);
    assert floor == [] ==> s.channels + floor == s.channels;
  }
}
