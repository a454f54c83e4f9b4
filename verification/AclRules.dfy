/** Validation and rendering of a RedisUser's ACL rules, against the left-to-right evaluation of
    ACL SETUSER.
 */
module AclRules {
  import opened Basics

  // ------------------------------------------------------------------ lower-casing

  /** The server folds ASCII letters only. */
  function FoldAscii(c: char): char { if 'A' <= c <= 'Z' then (c as int + 32) as char else c }

  /** The validator's lower-casing also maps the Kelvin sign and the dotted capital I to ASCII. */
  function FoldUnicode(c: char): char {
    if c == '\U{212A}' then 'k' else if c == '\U{130}' then 'i' else FoldAscii(c)
  }

  function ServerLower(s: string): string { seq(|s|, i requires 0 <= i < |s| => FoldAscii(s[i])) }
  function Lower(s: string): string { seq(|s|, i requires 0 <= i < |s| => FoldUnicode(s[i])) }

  predicate Ascii(s: string) { forall i :: 0 <= i < |s| ==> s[i] < '\U{80}' }

  /** Where the server's reading of a name is ASCII, the validator read the same name. */
  lemma AsciiLowersAlike(s: string, from: nat)
    requires from <= |s| && Ascii(ServerLower(s)[from..])
    ensures Lower(s)[from..] == ServerLower(s)[from..]
  {
    forall i | from <= i < |s| ensures Lower(s)[i] == ServerLower(s)[i] {
      assert ServerLower(s)[from..][i - from] == FoldAscii(s[i]);
    }
  }

  // ------------------------------------------------------------------ the server

  /** The command table: every command and subcommand ("client|id"), and its categories. */
  datatype Table = Table(commands: set<string>, categories: map<string, set<string>>)

  ghost predicate WellFormed(t: Table) {
    && (forall c :: c in t.commands ==> Ascii(c))
    && (forall k :: k in t.categories ==> Ascii(k) && t.categories[k] <= t.commands)
  }

  /** A command with its subcommands. */
  function Family(t: Table, name: string): set<string> {
    set c | c in t.commands && (c == name || name + "|" <= c)
  }

  datatype Scope = Everything | Patterns(patterns: set<string>)

  datatype Account = Account(
    enabled: bool, nopass: bool, passwords: set<string>, allowed: set<string>,
    keys: Scope, channels: Scope, selectors: set<string>, sanitize: bool)

  datatype Keyword =
    | On | Off | NoPass | ResetPass | Reset | AllKeys | ResetKeys | AllChannels | ResetChannels
    | AllCommands | NoCommands | Sanitize | NoSanitize | ClearSelectors

  function KeywordOf(n: string): Option<Keyword> {
    if n == "on" then Some(On) else if n == "off" then Some(Off)
    else if n == "nopass" then Some(NoPass) else if n == "resetpass" then Some(ResetPass)
    else if n == "reset" then Some(Reset)
    else if n == "allkeys" then Some(AllKeys) else if n == "resetkeys" then Some(ResetKeys)
    else if n == "allchannels" then Some(AllChannels) else if n == "resetchannels" then Some(ResetChannels)
    else if n == "allcommands" then Some(AllCommands) else if n == "nocommands" then Some(NoCommands)
    else if n == "sanitize-payload" then Some(Sanitize) else if n == "nosanitize-payload" then Some(NoSanitize)
    else if n == "clearselectors" then Some(ClearSelectors)
    else None
  }

  lemma KeywordsStartWithLetters(n: string)
    ensures KeywordOf(n).Some? ==> n != "" && 'a' <= n[0] <= 'z'
  {
  }

  const BLANK := Account(false, false, {}, {}, Patterns({}), Patterns({}), {}, true)

  function ApplyKeyword(t: Table, k: Keyword, a: Account): Account {
    match k
    case On => a.(enabled := true)
    case Off => a.(enabled := false)
    case NoPass => a.(nopass := true, passwords := {})
    case ResetPass => a.(nopass := false, passwords := {})
    case Reset => BLANK
    case AllKeys => a.(keys := Everything)
    case ResetKeys => a.(keys := Patterns({}))
    case AllChannels => a.(channels := Everything)
    case ResetChannels => a.(channels := Patterns({}))
    case AllCommands => a.(allowed := t.commands)
    case NoCommands => a.(allowed := {})
    case Sanitize => a.(sanitize := true)
    case NoSanitize => a.(sanitize := false)
    case ClearSelectors => a.(selectors := {})
  }

  /** A pattern cannot follow the one that allows everything. */
  function AddPattern(s: Scope, p: string): Option<Scope> {
    match s
    case Everything => None
    case Patterns(ps) => Some(Patterns(ps + {p}))
  }

  /** The commands a +@category, -@category, +command or -command rule names. */
  function Named(t: Table, name: string): Option<set<string>> {
    if name != "" && name[0] == '@' then
      var c := name[1..];
      if c == "all" then Some(t.commands)
      else if c in t.categories then Some(t.categories[c]) else None
    else if name in t.commands then Some(Family(t, name)) else None
  }

  /** One SETUSER rule; None is a rule the server refuses. */
  function Eval(t: Table, rule: string, a: Account): Option<Account> {
    var n := ServerLower(rule);
    if KeywordOf(n).Some? then Some(ApplyKeyword(t, KeywordOf(n).value, a))
    else if rule == "" then None
    else match rule[0]
      case '+' => (match Named(t, n[1..]) case None => None case Some(cs) => Some(a.(allowed := a.allowed + cs)))
      case '-' => (match Named(t, n[1..]) case None => None case Some(cs) => Some(a.(allowed := a.allowed - cs)))
      case '~' =>
        if rule == "~*" then Some(a.(keys := Everything))
        else (match AddPattern(a.keys, rule) case None => None case Some(s) => Some(a.(keys := s)))
      case '%' => (match AddPattern(a.keys, rule) case None => None case Some(s) => Some(a.(keys := s)))
      case '&' =>
        if rule == "&*" then Some(a.(channels := Everything))
        else (match AddPattern(a.channels, rule) case None => None case Some(s) => Some(a.(channels := s)))
      case '>' => Some(a.(nopass := false, passwords := a.passwords + {rule[1..]}))
      case '<' => Some(a.(passwords := a.passwords - {rule[1..]}))
      case '#' => Some(a.(nopass := false, passwords := a.passwords + {rule}))
      case '!' => Some(a.(passwords := a.passwords - {rule}))
      case '(' => Some(a.(selectors := a.selectors + {rule}))
      case _ => None
  }

  /** ACL SETUSER: the rules left to right; one refused rule refuses them all. */
  function SetUser(t: Table, rules: seq<string>, a: Account): Option<Account> {
    if rules == [] then Some(a) else
    match Eval(t, rules[0], a)
    case None => None
    case Some(b) => SetUser(t, rules[1..], b)
  }

  // ------------------------------------------------------------------ the operator

  datatype Field = Categories | Commands | Keys | Channels

  /** redisAllowedCommands and redisACLCategories. */
  datatype Policy = Policy(allowedCommands: set<string>, categories: set<string>)

  datatype Spec = Spec(
    enabled: bool, categories: seq<string>, commands: seq<string>, keys: seq<string>, channels: seq<string>)

  predicate Space(c: char) {
    || c == ' ' || '\t' <= c <= '\r' || c == '\U{85}' || c == '\U{A0}'
    || c == '\U{1680}' || '\U{2000}' <= c <= '\U{200A}'
    || c == '\U{2028}' || c == '\U{2029}' || c == '\U{202F}' || c == '\U{205F}' || c == '\U{3000}'
  }

  predicate Denied(k: Keyword) {
    k == NoPass || k == Reset || k == ResetPass || k == On || k == Off || k == AllCommands
  }

  /** The standalone rules each field takes. */
  predicate ScopeKeyword(f: Field, k: Keyword) {
    match f
    case Keys => k == AllKeys || k == ResetKeys
    case Channels => k == AllChannels || k == ResetChannels
    case Commands => k == NoCommands || k == ClearSelectors || k == Sanitize || k == NoSanitize
    case Categories => false
  }

  predicate KeyPattern(n: string) {
    || (|n| >= 2 && n[0] == '~')
    || (|n| >= 4 && n[0] == '%' && (n[1] == 'r' || n[1] == 'w') && n[2] == '~')
    || (|n| >= 5 && n[0] == '%' && n[1] == 'r' && n[2] == 'w' && n[3] == '~')
  }

  predicate CategoryRule(p: Policy, n: string) {
    && |n| >= 2 && n[1] == '@'
    && (n[0] == '-' ==> |n| > 2)
    && (n[0] == '+' ==> n[2..] != "all" && n[2..] != "admin" && n[2..] != "dangerous" && n[2..] in p.categories)
    && (n[0] == '-' || n[0] == '+')
  }

  predicate CommandRule(p: Policy, n: string) {
    && |n| >= 2 && n[1] != '@'
    && (n[0] == '-' || (n[0] == '+' && n[1..] in p.allowedCommands))
  }

  /** validateACLRule */
  predicate ValidRule(p: Policy, f: Field, rule: string) {
    var n := Lower(rule);
    && rule != ""
    && (forall i :: 0 <= i < |rule| ==> !Space(rule[i]) && rule[i] != '(' && rule[i] != ')')
    && rule[0] != '>' && rule[0] != '<' && rule[0] != '#' && rule[0] != '!'
    && (KeywordOf(n).Some? ==> !Denied(KeywordOf(n).value))
    && ((KeywordOf(n).Some? && ScopeKeyword(f, KeywordOf(n).value)) ||
        match f
        case Keys => KeyPattern(n)
        case Channels => |n| >= 2 && n[0] == '&'
        case Categories => CategoryRule(p, n)
        case Commands => CommandRule(p, n))
  }

  ghost predicate ValidRules(p: Policy, f: Field, rules: seq<string>) {
    forall i :: 0 <= i < |rules| ==> ValidRule(p, f, rules[i])
  }

  ghost predicate ValidSpec(p: Policy, s: Spec) {
    && ValidRules(p, Categories, s.categories) && ValidRules(p, Commands, s.commands)
    && ValidRules(p, Keys, s.keys) && ValidRules(p, Channels, s.channels)
  }

  /** redisConfinementFloor, without its minus signs. */
  const FLOOR: seq<string> := ["@admin", "@dangerous", "scan", "randomkey", "dbsize", "pubsub", "function", "script"]

  function Minus(names: seq<string>): seq<string> { seq(|names|, i requires 0 <= i < |names| => "-" + names[i]) }

  /** buildACLRules */
  function Render(s: Spec, password: string): seq<string> {
    ["reset", ">" + password, if s.enabled then "on" else "off"]
    + (s.categories + (s.commands + (s.keys + (s.channels
    + (if s.categories != [] || s.commands != [] then Minus(FLOOR) else [])))))
  }

  // ------------------------------------------------------------------ confinement

  /** What an accepted rule of a field may grant at most. */
  function Grant(p: Policy, t: Table, f: Field, rule: string): set<string> {
    var n := Lower(rule);
    if f == Categories && |n| >= 2 && n[0] == '+' && n[2..] in p.categories && n[2..] in t.categories
    then t.categories[n[2..]]
    else if f == Commands && |n| >= 2 && n[0] == '+' && n[1..] in p.allowedCommands then Family(t, n[1..])
    else {}
  }

  /** Everything the accepted grants of a field can add up to. */
  function Grants(p: Policy, t: Table, f: Field, rules: seq<string>): set<string> {
    if rules == [] then {} else Grant(p, t, f, rules[0]) + Grants(p, t, f, rules[1..])
  }

  /** Rules of one field leave the key and channel scopes of the others alone. */
  ghost predicate SameScopes(f: Field, a: Account, b: Account) {
    (f != Keys ==> b.keys == a.keys) && (f != Channels ==> b.channels == a.channels)
  }

  /** Identity, credentials and selectors are out of reach of the spec's rules. */
  ghost predicate SameCredentials(a: Account, b: Account) {
    a.enabled == b.enabled && a.nopass == b.nopass && a.passwords == b.passwords && b.selectors <= a.selectors
  }

  lemma LowerKeepsFirst(rule: string)
    requires rule != ""
    ensures |Lower(rule)| == |ServerLower(rule)| == |rule|
    ensures forall i :: 0 <= i < |rule| && rule[i] != '\U{212A}' && rule[i] != '\U{130}' ==>
      Lower(rule)[i] == ServerLower(rule)[i]
    ensures !('a' <= Lower(rule)[0] <= 'z') ==> rule[0] == Lower(rule)[0] == ServerLower(rule)[0]
  {
  }

  /** A keyword of the server is the keyword the validator saw. */
  lemma ServerKeyword(rule: string)
    requires KeywordOf(ServerLower(rule)).Some?
    ensures Lower(rule) == ServerLower(rule)
  {
    var n := ServerLower(rule);
    KeywordIsAscii(n);
    assert n[0..] == n && Lower(rule)[0..] == Lower(rule);
    AsciiLowersAlike(rule, 0);
  }

  lemma ShortKeywordIsAscii(n: string)
    requires n == "on" || n == "off" || n == "nopass" || n == "reset" || n == "resetpass" || n == "allkeys" ||
      n == "resetkeys"
    ensures Ascii(n)
  {
  }

  lemma MiddleKeywordIsAscii(n: string)
    requires n == "allchannels" || n == "resetchannels" || n == "allcommands" || n == "nocommands"
    ensures Ascii(n)
  {
  }

  lemma LongKeywordIsAscii(n: string)
    requires n == "sanitize-payload" || n == "nosanitize-payload" || n == "clearselectors"
    ensures Ascii(n)
  {
  }

  lemma KeywordIsAscii(n: string)
    requires KeywordOf(n).Some?
    ensures Ascii(n)
  {
    hide Ascii;
    if n == "sanitize-payload" || n == "nosanitize-payload" || n == "clearselectors" {
      LongKeywordIsAscii(n);
    } else if n == "allchannels" || n == "resetchannels" || n == "allcommands" || n == "nocommands" {
      MiddleKeywordIsAscii(n);
    } else {
      ShortKeywordIsAscii(n);
    }
  }

  lemma NamedIsAscii(t: Table, name: string)
    requires WellFormed(t) && Named(t, name).Some?
    ensures Ascii(name)
  {
    if name != "" && name[0] == '@' {
      var c := name[1..];
      assert Ascii(c);
      forall i | 0 <= i < |name| ensures name[i] < '\U{80}' {
        if i > 0 { assert name[i] == c[i - 1]; }
      }
    }
  }

  lemma KeywordIsConfined(p: Policy, t: Table, f: Field, rule: string, a: Account)
    requires ValidRule(p, f, rule) && KeywordOf(ServerLower(rule)).Some?
    ensures
      var b := ApplyKeyword(t, KeywordOf(ServerLower(rule)).value, a);
      SameCredentials(a, b) && SameScopes(f, a, b) && b.allowed <= a.allowed &&
        (f == Keys || f == Channels ==> b.allowed == a.allowed)
  {
    ServerKeyword(rule);
    KeywordsStartWithLetters(Lower(rule));
    hide KeywordOf;
  }

  /** The names an accepted + rule adds, as the server reads them. */
  lemma AdditionIsGranted(p: Policy, t: Table, f: Field, rule: string)
    requires WellFormed(t) && ValidRule(p, f, rule) && rule[0] == '+'
    requires KeywordOf(ServerLower(rule)).None? && Named(t, ServerLower(rule)[1..]).Some?
    ensures f == Categories || f == Commands
    ensures Named(t, ServerLower(rule)[1..]).value == Grant(p, t, f, rule)
  {
    var n, m := Lower(rule), ServerLower(rule);
    LowerKeepsFirst(rule);
    KeywordsStartWithLetters(n);
    NamedIsAscii(t, m[1..]);
    AsciiLowersAlike(rule, 1);
    hide KeywordOf, Lower, ServerLower;
    if f == Categories {
      assert n[1..][1..] == n[2..];
    }
  }

  lemma RemovalOnlyInGrants(p: Policy, f: Field, rule: string)
    requires ValidRule(p, f, rule) && rule[0] == '-'
    ensures f == Categories || f == Commands
  {
    LowerKeepsFirst(rule);
    KeywordsStartWithLetters(Lower(rule));
    hide KeywordOf;
  }

  lemma PatternStart(p: Policy, f: Field, rule: string)
    requires ValidRule(p, f, rule) && KeywordOf(ServerLower(rule)).None?
    ensures rule[0] == '~' || rule[0] == '%' ==> f == Keys
    ensures rule[0] == '&' ==> f == Channels
  {
    LowerKeepsFirst(rule);
    KeywordsStartWithLetters(Lower(rule));
    hide KeywordOf;
  }

  /** One accepted rule: it adds nothing but its own grant, and rules written under keys or
      channels do not touch the commands at all. */
  lemma AcceptedRuleIsConfined(p: Policy, t: Table, f: Field, rule: string, a: Account, b: Account)
    requires WellFormed(t) && ValidRule(p, f, rule) && Eval(t, rule, a) == Some(b)
    ensures SameCredentials(a, b) && SameScopes(f, a, b)
    ensures b.allowed <= a.allowed + Grant(p, t, f, rule)
    ensures f == Keys || f == Channels ==> b.allowed == a.allowed
  {
    hide KeywordOf, WellFormed, Grant;
    if KeywordOf(ServerLower(rule)).Some? {
      KeywordIsConfined(p, t, f, rule, a);
    } else if rule[0] == '+' {
      AdditionIsGranted(p, t, f, rule);
    } else if rule[0] == '-' {
      RemovalOnlyInGrants(p, f, rule);
    } else {
      PatternStart(p, f, rule);
    }
  }

  lemma {:induction false} AcceptedRulesAreConfined(p: Policy, t: Table, f: Field, rules: seq<string>,
                                                    a: Account, b: Account)
    requires WellFormed(t) && ValidRules(p, f, rules) && SetUser(t, rules, a) == Some(b)
    ensures SameCredentials(a, b) && SameScopes(f, a, b)
    ensures b.allowed <= a.allowed + Grants(p, t, f, rules)
    ensures f == Keys || f == Channels ==> b.allowed == a.allowed
  {
    if rules != [] {
      var c := Eval(t, rules[0], a).value;
      AcceptedRuleIsConfined(p, t, f, rules[0], a, c);
      assert forall i :: 0 <= i < |rules[1..]| ==> rules[1..][i] == rules[i + 1];
      AcceptedRulesAreConfined(p, t, f, rules[1..], c, b);
    }
  }

  lemma {:induction false} SetUserConcat(t: Table, xs: seq<string>, ys: seq<string>, a: Account)
    ensures SetUser(t, xs + ys, a) ==
      match SetUser(t, xs, a) case None => None case Some(b) => SetUser(t, ys, b)
    decreases |xs|
  {
    if xs == [] {
      assert xs + ys == ys;
    } else {
      assert (xs + ys)[1..] == xs[1..] + ys;
      match Eval(t, xs[0], a)
      case None =>
      case Some(b) => SetUserConcat(t, xs[1..], ys, b);
    }
  }

  /** The commands behind a category ("@name"), or a command with its subcommands. */
  function CommandsOf(t: Table, name: string): set<string> {
    if name != "" && name[0] == '@'
    then if name[1..] in t.categories then t.categories[name[1..]] else {}
    else Family(t, name)
  }

  predicate LowerName(name: string) {
    name != "" && (forall i :: 0 <= i < |name| ==> 'a' <= name[i] <= 'z' || (i == 0 && name[i] == '@')) &&
      name != "@all"
  }

  lemma RemovalEvaluates(t: Table, name: string, a: Account, b: Account)
    requires LowerName(name) && Eval(t, "-" + name, a) == Some(b)
    ensures b == a.(allowed := a.allowed - CommandsOf(t, name))
  {
    var rule := "-" + name;
    assert rule[0] == '-' && rule[1..] == name;
    assert forall i :: 1 <= i < |rule| ==> rule[i] == name[i - 1];
    assert ServerLower(rule) == rule;
    KeywordsStartWithLetters(rule);
    assert name == [name[0]] + name[1..];
  }

  lemma {:induction false} RemovalsEvaluate(t: Table, names: seq<string>, a: Account, b: Account)
    requires (forall i :: 0 <= i < |names| ==> LowerName(names[i])) && SetUser(t, Minus(names), a) == Some(b)
    ensures SameCredentials(a, b) && a.keys == b.keys && a.channels == b.channels && b.allowed <= a.allowed
    ensures forall i :: 0 <= i < |names| ==> b.allowed !! CommandsOf(t, names[i])
  {
    if names != [] {
      var c := Eval(t, "-" + names[0], a).value;
      RemovalEvaluates(t, names[0], a, c);
      assert Minus(names)[1..] == Minus(names[1..]);
      RemovalsEvaluate(t, names[1..], c, b);
      forall i | 0 <= i < |names| ensures b.allowed !! CommandsOf(t, names[i]) {
        if i > 0 { assert names[i] == names[1..][i - 1]; }
      }
    }
  }

  lemma FloorNames()
    ensures forall i :: 0 <= i < |FLOOR| ==> LowerName(FLOOR[i])
  {
    forall i | 0 <= i < |FLOOR| ensures LowerName(FLOOR[i]) {
      var name := FLOOR[i];
      forall j | 0 <= j < |name| ensures 'a' <= name[j] <= 'z' || (j == 0 && name[j] == '@') {
      }
    }
  }

  lemma PasswordEvaluates(t: Table, password: string, a: Account)
    ensures Eval(t, ">" + password, a) == Some(a.(nopass := false, passwords := a.passwords + {password}))
  {
    var rule := ">" + password;
    assert rule[0] == '>' && rule[1..] == password && ServerLower(rule)[0] == '>';
    KeywordsStartWithLetters(ServerLower(rule));
    hide KeywordOf;
  }

  /** The opening rules make the account a constant, whatever it was before. */
  lemma OpeningForgetsThePast(t: Table, enabled: bool, password: string, a: Account)
    ensures SetUser(t, ["reset", ">" + password, if enabled then "on" else "off"], a)
         == Some(BLANK.(enabled := enabled, passwords := {password}))
  {
    var gt := ">" + password;
    var state := if enabled then "on" else "off";
    assert ServerLower("reset") == "reset" && ServerLower(state) == state;
    var rules := ["reset", gt, state];
    assert rules[1..] == [gt, state] && rules[1..][1..] == [state] && rules[1..][1..][1..] == [];
    var b := BLANK.(passwords := {password});
    PasswordEvaluates(t, password, BLANK);
    assert {} + {password} == {password};
    assert Eval(t, state, b) == Some(b.(enabled := enabled));
    calc {
      SetUser(t, rules, a);
      SetUser(t, [gt, state], BLANK);
      SetUser(t, [state], b);
      SetUser(t, [], b.(enabled := enabled));
    }
  }

  /** Confinement: for every accepted spec, whatever the account was before and however commands
      are assigned to categories, the SETUSER either is refused or leaves an account that does
      not depend on the prior one, has exactly the declared password and state, no selectors,
      nothing beyond the accepted grants, nothing the floor takes away, no command at all when no
      category and no command was asked for, and no key or channel when none was asked for. */
  lemma RenderedUserIsConfined(p: Policy, t: Table, s: Spec, password: string, before: Account, other: Account)
    requires WellFormed(t) && ValidSpec(p, s)
    ensures SetUser(t, Render(s, password), before) == SetUser(t, Render(s, password), other)
    ensures SetUser(t, Render(s, password), before).Some? ==>
      var a := SetUser(t, Render(s, password), before).value;
      && a.enabled == s.enabled && !a.nopass && a.passwords == {password} && a.selectors == {}
      && a.allowed <= Grants(p, t, Categories, s.categories) + Grants(p, t, Commands, s.commands)
      && (s.categories != [] || s.commands != [] ==> forall i :: 0 <= i < |FLOOR| ==>
        a.allowed !! CommandsOf(t, FLOOR[i]))
      && (s.categories == [] && s.commands == [] ==> a.allowed == {})
      && (s.keys == [] ==> a.keys == Patterns({})) && (s.channels == [] ==> a.channels == Patterns({}))
  {
    var opening := ["reset", ">" + password, if s.enabled then "on" else "off"];
    var floor := if s.categories != [] || s.commands != [] then Minus(FLOOR) else [];
    var grants := s.categories + (s.commands + (s.keys + (s.channels + floor)));
    OpeningForgetsThePast(t, s.enabled, password, before);
    OpeningForgetsThePast(t, s.enabled, password, other);
    SetUserConcat(t, opening, grants, before);
    SetUserConcat(t, opening, grants, other);
    var a0 := BLANK.(enabled := s.enabled, passwords := {password});
    if SetUser(t, grants, a0).Some? {
      GrantsAreConfined(p, t, s, a0, SetUser(t, grants, a0).value);
    }
  }

  lemma GrantsAreConfined(p: Policy, t: Table, s: Spec, a0: Account, a: Account)
    requires WellFormed(t) && ValidSpec(p, s) && a0.allowed == {}
    requires
      var floor := if s.categories != [] || s.commands != [] then Minus(FLOOR) else [];
      SetUser(t, s.categories + (s.commands + (s.keys + (s.channels + floor))), a0) == Some(a)
    ensures SameCredentials(a0, a)
    ensures s.keys == [] ==> a.keys == a0.keys
    ensures s.channels == [] ==> a.channels == a0.channels
    ensures a.allowed <= Grants(p, t, Categories, s.categories) + Grants(p, t, Commands, s.commands)
    ensures s.categories != [] || s.commands != [] ==> forall i :: 0 <= i < |FLOOR| ==>
      a.allowed !! CommandsOf(t, FLOOR[i])
    ensures s.categories == [] && s.commands == [] ==> a.allowed == {}
  {
    hide Eval, ValidRule, CommandsOf;
    var floor := if s.categories != [] || s.commands != [] then Minus(FLOOR) else [];
    SetUserConcat(t, s.categories, s.commands + (s.keys + (s.channels + floor)), a0);
    var a1 := SetUser(t, s.categories, a0).value;
    AcceptedRulesAreConfined(p, t, Categories, s.categories, a0, a1);
    SetUserConcat(t, s.commands, s.keys + (s.channels + floor), a1);
    var a2 := SetUser(t, s.commands, a1).value;
    AcceptedRulesAreConfined(p, t, Commands, s.commands, a1, a2);
    SetUserConcat(t, s.keys, s.channels + floor, a2);
    var a3 := SetUser(t, s.keys, a2).value;
    AcceptedRulesAreConfined(p, t, Keys, s.keys, a2, a3);
    SetUserConcat(t, s.channels, floor, a3);
    var a4 := SetUser(t, s.channels, a3).value;
    AcceptedRulesAreConfined(p, t, Channels, s.channels, a3, a4);
    if s.categories != [] || s.commands != [] {
      FloorNames();
      RemovalsEvaluate(t, FLOOR, a4, a);
    }
  }
}
