/** Keyboard accelerators: parsing a shortcut into modifiers and one key, the policy on them, and
    printing the normal form. */
module Accelerator {
  import opened Common

  const MAX_ACCELERATOR_CHARS: nat := 64

  datatype Code =
    | Required | TooLong | InvalidToken | DuplicateModifier | ModifierConflict | PrimaryKeyRequired
    | MultiplePrimaryKeys | SystemModifierRequired | TwoModifiersRequired | ReservedShortcut

  datatype Modifier = CommandOrControl | Command | Control | Alt | Option_ | Shift | Super

  const MODIFIER_ORDER: seq<Modifier> := [CommandOrControl, Command, Control, Alt, Option_, Shift, Super]

  function Name(m: Modifier): string {
    match m
    case CommandOrControl => "CommandOrControl"
    case Command => "Command"
    case Control => "Control"
    case Alt => "Alt"
    case Option_ => "Option"
    case Shift => "Shift"
    case Super => "Super"
  }

  // ---- Text ----

  /** The characters `trim` removes: white space and line terminators. */
  predicate IsSpace(c: char) {
    '\t' <= c <= '\r' || c == ' ' || c == '\U{A0}' || c == '\U{1680}' || '\U{2000}' <= c <= '\U{200A}'
    || c == '\U{2028}' || c == '\U{2029}' || c == '\U{202F}' || c == '\U{205F}' || c == '\U{3000}' || c == '\U{FEFF}'
  }

  function TrimStart(s: string): string { if s != [] && IsSpace(s[0]) then TrimStart(s[1..]) else s }

  function TrimEnd(s: string): string {
    if s != [] && IsSpace(s[|s| - 1]) then TrimEnd(s[..|s| - 1]) else s
  }

  function Trim(s: string): string { TrimEnd(TrimStart(s)) }

  predicate AllSpace(s: string) { forall i | 0 <= i < |s| :: IsSpace(s[i]) }

  /** Trimming takes the spaces off both ends and nothing else. */
  lemma TrimExactly(s: string) returns (before: string, after: string)
    ensures s == before + Trim(s) + after && AllSpace(before) && AllSpace(after)
    ensures Trim(s) != [] ==> !IsSpace(Trim(s)[0]) && !IsSpace(Trim(s)[|Trim(s)| - 1])
  {
    hide IsSpace;
    before := TrimmedStart(s);
    after := TrimmedEnd(TrimStart(s));
    assert s == before + (Trim(s) + after);
    if Trim(s) != [] { assert Trim(s)[0] == TrimStart(s)[0]; }
  }

  lemma {:induction false} TrimmedStart(s: string) returns (before: string)
    ensures s == before + TrimStart(s) && AllSpace(before)
    ensures TrimStart(s) != [] ==> !IsSpace(TrimStart(s)[0])
  {
    hide IsSpace;
    before := [];
    if s != [] && IsSpace(s[0]) {
      before := TrimmedStart(s[1..]);
      before := [s[0]] + before;
    }
  }

  lemma {:induction false} TrimmedEnd(s: string) returns (after: string)
    ensures s == TrimEnd(s) + after && AllSpace(after)
    ensures TrimEnd(s) != [] ==> !IsSpace(TrimEnd(s)[|TrimEnd(s)| - 1])
  {
    hide IsSpace;
    after := [];
    if s != [] && IsSpace(s[|s| - 1]) {
      after := TrimmedEnd(s[..|s| - 1]);
      assert s == s[..|s| - 1] + [s[|s| - 1]];
      after := after + [s[|s| - 1]];
    }
  }

  predicate Printable(s: string) { forall i :: 0 <= i < |s| ==> ' ' <= s[i] <= '~' }

  function LowerChar(c: char): char { if 'A' <= c <= 'Z' then c - 'A' + 'a' else c }

  function UpperChar(c: char): char { if 'a' <= c <= 'z' then c - 'a' + 'A' else c }

  /** Lower case of printable text. */
  function Lower(s: string): string { seq(|s|, i requires 0 <= i < |s| => LowerChar(s[i])) }

  function Split(s: string): seq<string> {
    if s == [] then [[]]
    else
      var rest := Split(s[1..]);
      if s[0] == '+' then [[]] + rest else [[s[0]] + rest[0]] + rest[1..]
  }

  function Join(tokens: seq<string>): string
    requires tokens != []
  {
    if |tokens| == 1 then tokens[0] else tokens[0] + "+" + Join(tokens[1..])
  }

  function TrimmedTokens(s: string): seq<string> {
    var raw := Split(s);
    seq(|raw|, i requires 0 <= i < |raw| => Trim(raw[i]))
  }

  // ---- Tokens ----

  function Alias(lower: string): Option<Modifier> {
    if lower == "cmdorctrl" || lower == "commandorcontrol" then Some(CommandOrControl)
    else if lower == "cmd" || lower == "command" then Some(Command)
    else if lower == "ctrl" || lower == "control" then Some(Control)
    else if lower == "alt" then Some(Alt)
    else if lower == "option" then Some(Option_)
    else if lower == "shift" then Some(Shift)
    else if lower == "super" || lower == "meta" then Some(Super)
    else None
  }

  function SpacingKey(lower: string): Option<string> {
    if lower == "space" then Some("Space")
    else if lower == "tab" then Some("Tab")
    else if lower == "enter" || lower == "return" then Some("Enter")
    else None
  }

  function EditingKey(lower: string): Option<string> {
    if lower == "escape" || lower == "esc" then Some("Escape")
    else if lower == "backspace" then Some("Backspace")
    else if lower == "delete" then Some("Delete")
    else if lower == "insert" then Some("Insert")
    else None
  }

  function PagingKey(lower: string): Option<string> {
    if lower == "home" then Some("Home")
    else if lower == "end" then Some("End")
    else if lower == "pageup" then Some("PageUp")
    else if lower == "pagedown" then Some("PageDown")
    else None
  }

  function ArrowKey(lower: string): Option<string> {
    if lower == "up" then Some("Up")
    else if lower == "down" then Some("Down")
    else if lower == "left" then Some("Left")
    else if lower == "right" then Some("Right")
    else None
  }

  function NamedKey(lower: string): Option<string> {
    SpacingKey(lower).Or(EditingKey(lower)).Or(PagingKey(lower)).Or(ArrowKey(lower))
  }

  predicate IsLetter(c: char) { 'a' <= c <= 'z' || 'A' <= c <= 'Z' }

  predicate IsDigit(c: char) { '0' <= c <= '9' }

  /** F1 to F24. */
  predicate IsFunctionKey(t: string) {
    && 2 <= |t| <= 3 && (t[0] == 'f' || t[0] == 'F') && '1' <= t[1] <= '9'
    && (|t| == 3 ==> (t[1] == '1' && IsDigit(t[2])) || (t[1] == '2' && '0' <= t[2] <= '4'))
  }

  /** normalizedPrimaryKey. */
  function PrimaryKey(token: string): Option<string> {
    var named := NamedKey(Lower(token));
    if named.Some? then named
    else if |token| == 1 && IsLetter(token[0]) then Some([UpperChar(token[0])])
    else if |token| == 1 && IsDigit(token[0]) then Some(token)
    else if IsFunctionKey(token) then Some("F" + token[1..])
    else None
  }

  /** The words for named keys. */
  lemma SpacingWords()
    ensures NamedKey("space") == Some("Space") && NamedKey("tab") == Some("Tab")
    ensures NamedKey("enter") == Some("Enter") && NamedKey("return") == Some("Enter")
  {}

  lemma EditingWords()
    ensures NamedKey("escape") == Some("Escape") && NamedKey("esc") == Some("Escape")
    ensures NamedKey("backspace") == Some("Backspace") && NamedKey("delete") == Some("Delete")
    ensures NamedKey("insert") == Some("Insert")
  {}

  lemma PagingWords()
    ensures NamedKey("home") == Some("Home") && NamedKey("end") == Some("End")
    ensures NamedKey("pageup") == Some("PageUp") && NamedKey("pagedown") == Some("PageDown")
  {}

  lemma ArrowWords()
    ensures NamedKey("up") == Some("Up") && NamedKey("down") == Some("Down")
    ensures NamedKey("left") == Some("Left") && NamedKey("right") == Some("Right")
  {}

  /** No named key is one character long, and none of two or three characters starts with an f. */
  lemma NoShortNames(lower: string)
    ensures NamedKey(lower).Some? ==> |lower| >= 2 && (|lower| <= 3 ==> lower[0] != 'f')
  {}

  /** A letter is its upper case, a digit itself, a function key its name with a capital F. */
  lemma PlainKeysExactly(token: string)
    ensures |token| == 1 && IsLetter(token[0]) ==> PrimaryKey(token) == Some([UpperChar(token[0])])
    ensures |token| == 1 && IsDigit(token[0]) ==> PrimaryKey(token) == Some(token)
    ensures IsFunctionKey(token) ==> PrimaryKey(token) == Some("F" + token[1..])
    ensures NamedKey(Lower(token)).Some? ==> PrimaryKey(token) == NamedKey(Lower(token))
    ensures PrimaryKey(token).Some? ==>
              NamedKey(Lower(token)).Some? || IsFunctionKey(token) || (|token| == 1 && (IsLetter(token[0]) || IsDigit(token[0])))
  {
    NoShortNames(Lower(token));
    hide NamedKey;
  }

  datatype Class = Mod(m: Modifier) | Key(name: string) | Unknown

  function Classify(token: string): Class {
    var modifier := Alias(Lower(token));
    if modifier.Some? then Mod(modifier.value)
    else
      var key := PrimaryKey(token);
      if key.Some? then Key(key.value) else Unknown
  }

  function Classes(tokens: seq<string>): seq<Class> {
    seq(|tokens|, i requires 0 <= i < |tokens| => Classify(tokens[i]))
  }

  /** The token loop, after some classified tokens: the modifiers and the key so far. */
  function Scan(classes: seq<Class>): Result<(set<Modifier>, Option<string>), Code> {
    if classes == [] then Ok(({}, None))
    else
      var before, c := Scan(classes[..|classes| - 1]), classes[|classes| - 1];
      if before.Err? then before
      else
        var (mods, key) := before.value;
        match c
        case Mod(m) => if m in mods then Err(DuplicateModifier) else Ok((mods + {m}, key))
        case Key(name) => if key.Some? then Err(MultiplePrimaryKeys) else Ok((mods, Some(name)))
        case Unknown => Err(InvalidToken)
  }

  // ---- Policy ----

  /** isReserved. */
  predicate IsReserved(mods: set<Modifier>, key: string) {
    var windowsControl := Control in mods || CommandOrControl in mods;
    var macCommand := Command in mods || CommandOrControl in mods;
    || ((windowsControl || macCommand) && Shift !in mods && (key == "Q" || key == "W"))
    || (Alt in mods && key == "F4")
    || (windowsControl && Alt in mods && key == "Delete")
    || (windowsControl && Shift in mods && key == "Escape")
    || (windowsControl && Alt in mods && key == "Tab")
    || (Alt in mods && Shift in mods && key == "Tab")
    || (macCommand && (Option_ in mods || Alt in mods) && key == "Escape")
    || (Command in mods && Control in mods && key == "Q")
    || (Super in mods && Shift in mods && key == "S")
  }

  predicate Conflicting(mods: set<Modifier>) {
    (CommandOrControl in mods && (Command in mods || Control in mods)) || (Alt in mods && Option_ in mods)
  }

  /** The checks after the loop, in their order; None means allowed. */
  function Objection(mods: set<Modifier>, key: Option<string>): Option<Code> {
    if key.None? then Some(PrimaryKeyRequired)
    else if Conflicting(mods) then Some(ModifierConflict)
    else if mods <= {Shift} then Some(SystemModifierRequired)
    else if IsReserved(mods, key.value) then Some(ReservedShortcut)
    else if |mods| < 2 then Some(TwoModifiersRequired)
    else None
  }

  /** Control, Command, or the one that stands for either. */
  predicate Controls(mods: set<Modifier>) { Control in mods || CommandOrControl in mods }

  predicate Commands(mods: set<Modifier>) { Command in mods || CommandOrControl in mods }

  /** What is kept for the system, key by key: quit and close, the window, task and security
      switches, and the screen snip; every other key is free. */
  lemma ReservedByKey(mods: set<Modifier>, key: string)
    ensures key == "Q" ==> (IsReserved(mods, key) <==>
              ((Controls(mods) || Commands(mods)) && Shift !in mods) || {Command, Control} <= mods)
    ensures key == "W" ==> (IsReserved(mods, key) <==> (Controls(mods) || Commands(mods)) && Shift !in mods)
    ensures key == "F4" ==> (IsReserved(mods, key) <==> Alt in mods)
    ensures key == "Delete" ==> (IsReserved(mods, key) <==> Controls(mods) && Alt in mods)
    ensures key == "Tab" ==> (IsReserved(mods, key) <==> Alt in mods && (Controls(mods) || Shift in mods))
    ensures key == "Escape" ==> (IsReserved(mods, key) <==>
              (Controls(mods) && Shift in mods) || (Commands(mods) && (Option_ in mods || Alt in mods)))
    ensures key == "S" ==> (IsReserved(mods, key) <==> {Super, Shift} <= mods)
    ensures IsReserved(mods, key) ==> key in {"Q", "W", "F4", "Delete", "Tab", "Escape", "S"}
  {
    assert "Q"[0] != "W"[0] && "Q"[0] != "S"[0] && "W"[0] != "S"[0];
    assert "Delete"[0] != "Escape"[0];
  }

  /** The policy: two modifiers at least, no two that mean the same key, and nothing reserved. */
  lemma AllowedExactly(mods: set<Modifier>, key: string)
    ensures Objection(mods, Some(key)).None? <==>
              && |mods| >= 2 && !IsReserved(mods, key)
              && !({CommandOrControl, Command} <= mods) && !({CommandOrControl, Control} <= mods)
              && !({Alt, Option_} <= mods)
  {
    if mods <= {Shift} { SmallSubset(mods); }
  }

  /** Which objection: a missing key, a conflict, no modifier but Shift, a reserved combination, too
      few modifiers, in this order. */
  lemma ObjectionsExactly(mods: set<Modifier>, key: Option<string>)
    ensures var o := Objection(mods, key);
            && (o == Some(PrimaryKeyRequired) <==> key.None?)
            && (o == Some(ModifierConflict) <==> key.Some? && Conflicting(mods))
            && (o == Some(SystemModifierRequired) <==>
                  key.Some? && !Conflicting(mods) && forall m :: m in mods ==> m == Shift)
            && (o == Some(ReservedShortcut) <==>
                  key.Some? && !Conflicting(mods) && (exists m :: m in mods && m != Shift) && IsReserved(mods, key.value))
            && (o == Some(TwoModifiersRequired) <==>
                  key.Some? && !Conflicting(mods) && |mods| < 2 && (exists m :: m in mods && m != Shift) && !IsReserved(mods, key.value))
  {
    hide IsReserved, Conflicting;
    if !(mods <= {Shift}) {
      var m :| m in mods && m !in {Shift};
      assert m != Shift;
    }
  }

  lemma SmallSubset(mods: set<Modifier>)
    requires mods <= {Shift}
    ensures |mods| < 2
  {
    assert mods == {} || mods == {Shift};
  }

  /** The words a modifier can be written with, in lower case. */
  function Spellings(m: Modifier): set<string> {
    match m
    case CommandOrControl => {"cmdorctrl", "commandorcontrol"}
    case Command => {"cmd", "command"}
    case Control => {"ctrl", "control"}
    case Alt => {"alt"}
    case Option_ => {"option"}
    case Shift => {"shift"}
    case Super => {"super", "meta"}
  }

  lemma SpelledExactly(lower: string, m: Modifier)
    ensures Alias(lower) == Some(m) <==> lower in Spellings(m)
  {
    assert "cmd"[0] != "alt"[0] && "ctrl"[0] != "meta"[0];
    assert "command"[3] != "control"[3];
    assert "shift"[1] != "super"[1];
  }

  function Selected(order: seq<Modifier>, mods: set<Modifier>): seq<string> {
    if order == [] then []
    else (if order[0] in mods then [Name(order[0])] else []) + Selected(order[1..], mods)
  }

  function Print(mods: set<Modifier>, key: string): string { Join(Selected(MODIFIER_ORDER, mods) + [key]) }

  /** The text's own check, before the tokens. */
  function TextObjection(value: Option<string>): Option<Code> {
    if value.None? || Trim(value.value) == [] then Some(Required)
    else if |Trim(value.value)| > MAX_ACCELERATOR_CHARS then Some(TooLong)
    else if !Printable(Trim(value.value)) then Some(InvalidToken)
    else if [] in TrimmedTokens(Trim(value.value)) then Some(InvalidToken)
    else None
  }

  predicate Blank(token: string) { AllSpace(token) }

  /** The checks of the text, before its tokens are looked at. */
  lemma TextObjectionsExactly(value: Option<string>)
    ensures TextObjection(value) == Some(Required) <==> value.None? || AllSpace(value.value)
    ensures value.Some? && !AllSpace(value.value) ==>
              var text := Trim(value.value);
              && (TextObjection(value) == Some(TooLong) <==> |text| > MAX_ACCELERATOR_CHARS)
              && (TextObjection(value).None? <==>
                    && |text| <= MAX_ACCELERATOR_CHARS && (forall i | 0 <= i < |text| :: ' ' <= text[i] <= '~')
                    && forall i | 0 <= i < |Split(text)| :: !Blank(Split(text)[i]))
              && (TextObjection(value).Some? ==> TextObjection(value).value in {TooLong, InvalidToken})
  {
    hide IsSpace, AllSpace, Trim;
    if value.Some? {
      TrimmedAway(value.value);
      BlankTokens(Trim(value.value));
    }
  }

  lemma BlankTokens(text: string)
    ensures [] in TrimmedTokens(text) <==> exists i | 0 <= i < |Split(text)| :: Blank(Split(text)[i])
  {
    hide IsSpace, AllSpace, Trim, Split;
    var tokens := TrimmedTokens(text);
    forall i | 0 <= i < |tokens|
      ensures tokens[i] == [] <==> Blank(Split(text)[i])
    {
      TrimmedAway(Split(text)[i]);
      assert tokens[i] == Trim(Split(text)[i]);
    }
    if [] in tokens {
      var i :| 0 <= i < |tokens| && tokens[i] == [];
      assert Blank(Split(text)[i]);
    }
    if i :| 0 <= i < |Split(text)| && Blank(Split(text)[i]) {
      assert tokens[i] == [] && tokens[i] in tokens;
    }
  }

  lemma TrimmedAway(s: string)
    ensures Trim(s) == [] <==> AllSpace(s)
  {
    hide IsSpace;
    var before, after := TrimExactly(s);
    if Trim(s) == [] {
      assert forall i | 0 <= i < |s| :: s[i] == if i < |before| then before[i] else after[i - |before|];
    } else {
      assert s[|before|] == Trim(s)[0];
    }
  }

  function Decide(classes: seq<Class>): Result<string, Code> {
    var scanned := Scan(classes);
    if scanned.Err? then Err(scanned.error)
    else
      var (mods, key) := scanned.value;
      var objection := Objection(mods, key);
      if objection.Some? then Err(objection.value) else Ok(Print(mods, key.value))
  }

  function Normalize(value: Option<string>): Result<string, Code> {
    if TextObjection(value).Some? then Err(TextObjection(value).value)
    else Decide(Classes(TrimmedTokens(Trim(value.value))))
  }

  // ---- What the loop accepts ----

  function Due(c: Class, mods: set<Modifier>, key: Option<string>): nat {
    match c
    case Mod(m) => if m in mods then 1 else 0
    case Key(name) => if key == Some(name) then 1 else 0
    case Unknown => 0
  }

  /** The tokens are each modifier of the set once, the key once, and nothing else. */
  ghost predicate Counts(classes: seq<Class>, mods: set<Modifier>, key: Option<string>) {
    forall c :: multiset(classes)[c] == Due(c, mods, key)
  }

  lemma CountsSnoc(classes: seq<Class>, last: Class)
    ensures forall c :: multiset(classes + [last])[c] == multiset(classes)[c] + if c == last then 1 else 0
  {}

  /** The loop ends with these modifiers and this key exactly when the tokens are these, in any
      order. */
  lemma {:induction false} ScanIffCounts(classes: seq<Class>, mods: set<Modifier>, key: Option<string>)
    ensures Scan(classes) == Ok((mods, key)) <==> Counts(classes, mods, key)
    decreases |classes|, 1
  {
    if classes == [] {
      if Counts(classes, mods, key) {
        forall m ensures m !in mods { assert multiset(classes)[Mod(m)] == 0; }
        assert mods == {};
        assert multiset(classes)[Key(if key.Some? then key.value else "")] == 0;
      }
    } else {
      var front, last := classes[..|classes| - 1], classes[|classes| - 1];
      assert classes == front + [last];
      CountsSnoc(front, last);
      ScanStep(front, last, mods, key);
    }
  }

  lemma ScanStep(front: seq<Class>, last: Class, mods: set<Modifier>, key: Option<string>)
    ensures Scan(front + [last]) == Ok((mods, key)) <==> Counts(front + [last], mods, key)
    decreases |front| + 1, 0
  {
    var classes := front + [last];
    assert classes[..|classes| - 1] == front;
    CountsSnoc(front, last);
    assert multiset(classes)[last] == multiset(front)[last] + 1;
    match last
    case Mod(m) =>
      ScanIffCounts(front, mods - {m}, key);
      assert m in mods ==> mods - {m} + {m} == mods;
      if Scan(classes) == Ok((mods, key)) {
        assert Scan(front).value.0 == mods - {m};
      }
    case Key(name) =>
      ScanIffCounts(front, mods, None);
    case Unknown =>
  }

  // ---- Order and letter case ----

  lemma ClassIgnoresCase(token: string)
    ensures Classify(Lower(token)) == Classify(token)
  {
    hide Alias, NamedKey;
    var lower := Lower(token);
    assert Lower(lower) == lower;
    if Alias(lower).None? && NamedKey(lower).None? && IsFunctionKey(token) {
      assert "F" + lower[1..] == "F" + token[1..];
    }
  }

  lemma ClassesIgnoreCase(tokens: seq<string>)
    ensures Classes(LowerTokens(tokens)) == Classes(tokens)
  {
    forall i | 0 <= i < |tokens|
      ensures Classify(Lower(tokens[i])) == Classify(tokens[i])
    {
      ClassIgnoresCase(tokens[i]);
    }
  }

  /** Each token is classified on its own, so the bag of classes depends on the bag of tokens. */
  lemma {:induction false} SameBagSameClasses(a: seq<string>, b: seq<string>)
    requires multiset(a) == multiset(b)
    ensures multiset(Classes(a)) == multiset(Classes(b))
    decreases |a|
  {
    hide Classify;
    if a == [] {
      assert |multiset(b)| == 0;
    } else {
      var n := |a| - 1;
      assert a[n] in multiset(b);
      var k :| 0 <= k < |b| && b[k] == a[n];
      var rest := b[..k] + b[k + 1..];
      TakeOut(a, n);
      TakeOut(b, k);
      assert a[..n] + a[n + 1..] == a[..n];
      SameBagSameClasses(a[..n], rest);
      ClassesTakeOut(a, n);
      ClassesTakeOut(b, k);
    }
  }

  lemma ClassesTakeOut(s: seq<string>, k: nat)
    requires k < |s|
    ensures multiset(Classes(s)) == multiset(Classes(s[..k] + s[k + 1..])) + multiset{Classify(s[k])}
  {
    hide Classify;
    TakeOut(Classes(s), k);
    assert Classes(s)[..k] + Classes(s)[k + 1..] == Classes(s[..k] + s[k + 1..]);
  }

  lemma TakeOut<T>(s: seq<T>, k: nat)
    requires k < |s|
    ensures multiset(s) == multiset(s[..k] + s[k + 1..]) + multiset{s[k]}
    ensures multiset(s[..k] + s[k + 1..]) == multiset(s) - multiset{s[k]}
  {
    assert s == s[..k] + [s[k]] + s[k + 1..];
  }

  function LowerTokens(tokens: seq<string>): seq<string> {
    seq(|tokens|, i requires 0 <= i < |tokens| => Lower(tokens[i]))
  }

  /** Acceptance and output do not depend on the order or the letter case of the trimmed tokens:
      two texts with the same bag of lower-case tokens are accepted alike, with one normal form. */
  lemma OrderAndCaseDoNotMatter(a: string, b: string)
    requires TextObjection(Some(a)).None? && TextObjection(Some(b)).None?
    requires multiset(LowerTokens(TrimmedTokens(Trim(a)))) == multiset(LowerTokens(TrimmedTokens(Trim(b))))
    ensures Normalize(Some(a)).Ok? <==> Normalize(Some(b)).Ok?
    ensures Normalize(Some(a)).Ok? ==> Normalize(Some(a)) == Normalize(Some(b))
  {
    var s, t := TrimmedTokens(Trim(a)), TrimmedTokens(Trim(b));
    ClassesIgnoreCase(s);
    ClassesIgnoreCase(t);
    SameBagSameClasses(LowerTokens(s), LowerTokens(t));
    if Decide(Classes(s)).Ok? { DecideIgnoresOrder(Classes(s), Classes(t)); }
    if Decide(Classes(t)).Ok? { DecideIgnoresOrder(Classes(t), Classes(s)); }
  }

  lemma DecideIgnoresOrder(a: seq<Class>, b: seq<Class>)
    requires multiset(a) == multiset(b) && Decide(a).Ok?
    ensures Decide(b) == Decide(a)
  {
    var (mods, key) := Scan(a).value;
    ScanIffCounts(a, mods, key);
    ScanIffCounts(b, mods, key);
  }

  /** The policy in one sentence: a text is accepted, as this normal form, exactly when its tokens
      are some modifiers, each once, and one key, to which the policy has no objection. */
  lemma AcceptedExactly(value: Option<string>, text: string)
    ensures Normalize(value) == Ok(text) <==>
      TextObjection(value).None? && exists mods: set<Modifier>, key: string ::
        Counts(Classes(TrimmedTokens(Trim(value.value))), mods, Some(key)) && Objection(mods, Some(key)).None?
        && text == Print(mods, key)
  {
    if TextObjection(value).None? {
      var classes := Classes(TrimmedTokens(Trim(value.value)));
      if Decide(classes) == Ok(text) {
        var (mods, key) := Scan(classes).value;
        ScanIffCounts(classes, mods, key);
        assert Counts(classes, mods, Some(key.value)) && text == Print(mods, key.value);
      }
      if mods: set<Modifier>, key: string :|
        Counts(classes, mods, Some(key)) && Objection(mods, Some(key)).None? && text == Print(mods, key)
      {
        ScanIffCounts(classes, mods, Some(key));
      }
    }
  }

  // ---- The normal form ----

  /** What the printed words have in common: no separator, no space at either end. */
  predicate Word(t: string) {
    t != [] && forall i :: 0 <= i < |t| ==> ' ' < t[i] <= '~' && t[i] != '+'
  }

  lemma ModifiersInLowerCase()
    ensures Lower("CommandOrControl") == "commandorcontrol" && Lower("Command") == "command"
    ensures Lower("Control") == "control" && Lower("Alt") == "alt" && Lower("Option") == "option"
    ensures Lower("Shift") == "shift" && Lower("Super") == "super"
  {}

  lemma ModifierName(m: Modifier)
    ensures Classify(Name(m)) == Mod(m)
  {
    hide NamedKey, PrimaryKey, Lower;
    ModifiersInLowerCase();
  }

  lemma NamesAreWords(m: Modifier)
    ensures Word(Name(m))
  {}

  /** A primary key in normal form stands for itself. */
  predicate NormalKey(key: string) { Word(key) && |key| <= 9 && Classify(key) == Key(key) }

  lemma NormalByLower(key: string, lower: string)
    requires Lower(key) == lower && Alias(lower).None? && NamedKey(lower) == Some(key)
    ensures Classify(key) == Key(key)
  {
    hide Alias, NamedKey;
  }

  lemma SpacingKeysAreWords(lower: string)
    requires SpacingKey(lower).Some?
    ensures Word(SpacingKey(lower).value) && |SpacingKey(lower).value| <= 9
    ensures NamedKey(lower) == SpacingKey(lower) && Alias(lower).None?
  {}

  lemma SpacingKeysInLowerCase()
    ensures Lower("Space") == "space" && Lower("Tab") == "tab" && Lower("Enter") == "enter"
  {}

  lemma SpacingKeysAreNormal(lower: string)
    requires SpacingKey(lower).Some?
    ensures NormalKey(SpacingKey(lower).value)
  {
    hide Word, Classify, Alias, NamedKey, Lower;
    SpacingKeysAreWords(lower);
    SpacingKeysInLowerCase();
    var key := SpacingKey(lower).value;
    if key == "Space" { SpacingKeysAreWords("space"); NormalByLower(key, "space"); }
    else if key == "Tab" { SpacingKeysAreWords("tab"); NormalByLower(key, "tab"); }
    else { SpacingKeysAreWords("enter"); NormalByLower(key, "enter"); }
  }

  lemma EditingKeysAreWords(lower: string)
    requires EditingKey(lower).Some?
    ensures Word(EditingKey(lower).value) && |EditingKey(lower).value| <= 9
    ensures NamedKey(lower) == EditingKey(lower) && Alias(lower).None?
  {}

  lemma EditingKeysInLowerCase()
    ensures Lower("Escape") == "escape" && Lower("Backspace") == "backspace"
    ensures Lower("Delete") == "delete" && Lower("Insert") == "insert"
  {}

  lemma EditingKeysAreNormal(lower: string)
    requires EditingKey(lower).Some?
    ensures NormalKey(EditingKey(lower).value)
  {
    hide Word, Classify, Alias, NamedKey, Lower;
    EditingKeysAreWords(lower);
    EditingKeysInLowerCase();
    var key := EditingKey(lower).value;
    if key == "Escape" { EditingKeysAreWords("escape"); NormalByLower(key, "escape"); }
    else if key == "Backspace" { EditingKeysAreWords("backspace"); NormalByLower(key, "backspace"); }
    else if key == "Delete" { EditingKeysAreWords("delete"); NormalByLower(key, "delete"); }
    else { EditingKeysAreWords("insert"); NormalByLower(key, "insert"); }
  }

  lemma PagingKeysAreWords(lower: string)
    requires PagingKey(lower).Some?
    ensures Word(PagingKey(lower).value) && |PagingKey(lower).value| <= 9
    ensures NamedKey(lower) == PagingKey(lower) && Alias(lower).None?
  {}

  lemma PagingKeysInLowerCase()
    ensures Lower("Home") == "home" && Lower("End") == "end"
    ensures Lower("PageUp") == "pageup" && Lower("PageDown") == "pagedown"
  {}

  lemma PagingKeysAreNormal(lower: string)
    requires PagingKey(lower).Some?
    ensures NormalKey(PagingKey(lower).value)
  {
    hide Word, Classify, Alias, NamedKey, Lower;
    PagingKeysAreWords(lower);
    PagingKeysInLowerCase();
    var key := PagingKey(lower).value;
    if key == "Home" { PagingKeysAreWords("home"); NormalByLower(key, "home"); }
    else if key == "End" { PagingKeysAreWords("end"); NormalByLower(key, "end"); }
    else if key == "PageUp" { PagingKeysAreWords("pageup"); NormalByLower(key, "pageup"); }
    else { PagingKeysAreWords("pagedown"); NormalByLower(key, "pagedown"); }
  }

  lemma ArrowKeysAreWords(lower: string)
    requires ArrowKey(lower).Some?
    ensures Word(ArrowKey(lower).value) && |ArrowKey(lower).value| <= 9
    ensures NamedKey(lower) == ArrowKey(lower) && Alias(lower).None?
  {}

  lemma ArrowKeysInLowerCase()
    ensures Lower("Up") == "up" && Lower("Down") == "down"
    ensures Lower("Left") == "left" && Lower("Right") == "right"
  {}

  lemma ArrowKeysAreNormal(lower: string)
    requires ArrowKey(lower).Some?
    ensures NormalKey(ArrowKey(lower).value)
  {
    hide Word, Classify, Alias, NamedKey, Lower;
    ArrowKeysAreWords(lower);
    ArrowKeysInLowerCase();
    var key := ArrowKey(lower).value;
    if key == "Up" { ArrowKeysAreWords("up"); NormalByLower(key, "up"); }
    else if key == "Down" { ArrowKeysAreWords("down"); NormalByLower(key, "down"); }
    else if key == "Left" { ArrowKeysAreWords("left"); NormalByLower(key, "left"); }
    else { ArrowKeysAreWords("right"); NormalByLower(key, "right"); }
  }

  /** Words of at most three characters that are no name keep their class. */
  lemma ShortKeysAreNormal(token: string)
    requires Alias(Lower(token)).None? && NamedKey(Lower(token)).None? && PrimaryKey(token).Some?
    ensures NormalKey(PrimaryKey(token).value)
  {
    hide Alias, NamedKey;
    var key := PrimaryKey(token).value;
    if IsFunctionKey(token) {
      assert key[1..] == token[1..] && "F" + key[1..] == key;
    }
    assert Lower(key) == Lower(token);
  }

  lemma PrimaryKeysAreNormal(token: string)
    requires Classify(token).Key?
    ensures NormalKey(Classify(token).name)
  {
    var lower := Lower(token);
    if SpacingKey(lower).Some? { SpacingKeysAreNormal(lower); }
    else if EditingKey(lower).Some? { EditingKeysAreNormal(lower); }
    else if PagingKey(lower).Some? { PagingKeysAreNormal(lower); }
    else if ArrowKey(lower).Some? { ArrowKeysAreNormal(lower); }
    else { ShortKeysAreNormal(token); }
  }

  lemma ScannedKeyIsNormal(tokens: seq<string>, mods: set<Modifier>, key: string)
    requires Counts(Classes(tokens), mods, Some(key))
    ensures NormalKey(key)
  {
    hide Classify, NormalKey;
    assert multiset(Classes(tokens))[Key(key)] == 1;
    assert Key(key) in Classes(tokens);
    var i :| 0 <= i < |tokens| && Classes(tokens)[i] == Key(key);
    PrimaryKeysAreNormal(tokens[i]);
  }

  // ---- Printing and parsing again ----

  ghost predicate Words(tokens: seq<string>) { forall i :: 0 <= i < |tokens| ==> Word(tokens[i]) }

  /** Printable text with no space at all. */
  predicate Solid(s: string) { s != [] && forall i :: 0 <= i < |s| ==> ' ' < s[i] <= '~' }

  lemma SolidIsTrimmed(s: string)
    requires Solid(s)
    ensures Trim(s) == s && Printable(s)
  {
    assert !IsSpace(s[0]) && !IsSpace(s[|s| - 1]);
  }

  lemma {:induction false} JoinIsSolid(tokens: seq<string>)
    requires tokens != [] && Words(tokens)
    ensures Solid(Join(tokens))
  {
    if |tokens| > 1 { JoinIsSolid(tokens[1..]); }
    assert Word(tokens[0]);
  }

  lemma {:induction false} SplitWord(w: string, rest: string)
    requires forall i :: 0 <= i < |w| ==> w[i] != '+'
    ensures Split(w) == [w]
    ensures Split(w + "+" + rest) == [w] + Split(rest)
  {
    if w == [] {
      assert w + "+" + rest == ['+'] + rest;
      assert (w + "+" + rest)[1..] == rest;
    } else {
      SplitWord(w[1..], rest);
      assert (w + "+" + rest)[1..] == w[1..] + "+" + rest;
      assert [w[0]] + w[1..] == w;
    }
  }

  /** Printing words with separators and splitting again gives the words. */
  lemma {:induction false} SplitJoin(tokens: seq<string>)
    requires tokens != [] && Words(tokens)
    ensures Split(Join(tokens)) == tokens
  {
    assert Word(tokens[0]);
    if |tokens| == 1 {
      SplitWord(tokens[0], "");
    } else {
      SplitWord(tokens[0], Join(tokens[1..]));
      SplitJoin(tokens[1..]);
      assert tokens == [tokens[0]] + tokens[1..];
    }
  }

  lemma JoinParses(tokens: seq<string>)
    requires tokens != [] && Words(tokens) && |Join(tokens)| <= MAX_ACCELERATOR_CHARS
    ensures TextObjection(Some(Join(tokens))).None?
    ensures TrimmedTokens(Trim(Join(tokens))) == tokens
  {
    JoinIsSolid(tokens);
    SolidIsTrimmed(Join(tokens));
    SplitJoin(tokens);
    forall i | 0 <= i < |tokens|
      ensures Trim(tokens[i]) == tokens[i] && tokens[i] != []
    {
      assert Word(tokens[i]);
      SolidIsTrimmed(tokens[i]);
    }
  }

  lemma {:induction false} SelectedAreWords(order: seq<Modifier>, mods: set<Modifier>)
    ensures Words(Selected(order, mods))
  {
    if order != [] {
      NamesAreWords(order[0]);
      SelectedAreWords(order[1..], mods);
    }
  }

  /** Room the selected names take, each with its separator. */
  function Room(order: seq<Modifier>, mods: set<Modifier>): nat {
    if order == [] then 0
    else (if order[0] in mods then |Name(order[0])| + 1 else 0) + Room(order[1..], mods)
  }

  lemma {:induction false} JoinLength(order: seq<Modifier>, mods: set<Modifier>, key: string)
    ensures |Join(Selected(order, mods) + [key])| == Room(order, mods) + |key|
  {
    if order != [] {
      JoinLength(order[1..], mods, key);
      var tail := Selected(order[1..], mods) + [key];
      if order[0] in mods {
        assert Selected(order, mods) + [key] == [Name(order[0])] + tail;
        assert ([Name(order[0])] + tail)[1..] == tail;
      } else {
        assert Selected(order, mods) + [key] == tail;
      }
    } else {
      assert Selected(order, mods) + [key] == [key];
    }
  }

  /** Without conflicting modifiers, the names leave room for a key of nine characters. With all
      seven they would not: the conflict rules are what keeps the normal form short. */
  lemma NamesLeaveRoom(mods: set<Modifier>)
    requires !Conflicting(mods)
    ensures Room(MODIFIER_ORDER, mods) + 9 <= MAX_ACCELERATOR_CHARS
  {
    var o := MODIFIER_ORDER;
    RoomOfTwo(o, mods);
    RoomOfTwo(o[2..], mods);
    RoomOfTwo(o[4..], mods);
    assert o[2..][2..] == o[4..] && o[4..][2..] == [Super];
    assert Room([Super], mods) <= 6;
  }

  lemma RoomOfTwo(order: seq<Modifier>, mods: set<Modifier>)
    requires 2 <= |order|
    ensures Room(order, mods) == Room(order[2..], mods)
      + (if order[0] in mods then |Name(order[0])| + 1 else 0) + (if order[1] in mods then |Name(order[1])| + 1 else 0)
  {
    assert order[1..][1..] == order[2..];
  }

  predicate DistinctOrder(order: seq<Modifier>) { forall i, j :: 0 <= i < j < |order| ==> order[i] != order[j] }

  lemma ClassesCons(name: string, rest: seq<string>, c: Class)
    ensures multiset(Classes([name] + rest))[c] == (if Classify(name) == c then 1 else 0) + multiset(Classes(rest))[c]
  {
    hide Classify;
    assert Classes([name] + rest) == [Classify(name)] + Classes(rest);
  }

  lemma {:induction false} SelectedCounts(order: seq<Modifier>, mods: set<Modifier>, c: Class)
    requires DistinctOrder(order)
    ensures multiset(Classes(Selected(order, mods)))[c] == if c.Mod? && c.m in mods && c.m in order then 1 else 0
  {
    hide Classify, Name;
    if order != [] {
      var rest := Selected(order[1..], mods);
      SelectedCounts(order[1..], mods, c);
      assert order == [order[0]] + order[1..] && order[0] !in order[1..];
      if order[0] in mods {
        ModifierName(order[0]);
        ClassesCons(Name(order[0]), rest, c);
      } else {
        assert Selected(order, mods) == rest;
      }
    }
  }

  lemma PrintedCounts(mods: set<Modifier>, key: string)
    requires Classify(key) == Key(key)
    ensures Counts(Classes(Selected(MODIFIER_ORDER, mods) + [key]), mods, Some(key))
  {
    hide Classify, Selected;
    var names := Selected(MODIFIER_ORDER, mods);
    assert Classes(names + [key]) == Classes(names) + [Key(key)];
    CountsSnoc(Classes(names), Key(key));
    forall c ensures multiset(Classes(names + [key]))[c] == Due(c, mods, Some(key)) {
      SelectedCounts(MODIFIER_ORDER, mods, c);
      if c.Mod? { EveryModifierIsOrdered(c.m); }
    }
  }

  lemma EveryModifierIsOrdered(m: Modifier)
    ensures m in MODIFIER_ORDER
  {
    match m
    case CommandOrControl => assert MODIFIER_ORDER[0] == m;
    case Command => assert MODIFIER_ORDER[1] == m;
    case Control => assert MODIFIER_ORDER[2] == m;
    case Alt => assert MODIFIER_ORDER[3] == m;
    case Option_ => assert MODIFIER_ORDER[4] == m;
    case Shift => assert MODIFIER_ORDER[5] == m;
    case Super => assert MODIFIER_ORDER[6] == m;
  }

  /** What is printed is accepted again and printed the same: the normal form re-parses, fits the
      limit, and normalizing twice is normalizing once. */
  lemma NormalFormIsStable(value: Option<string>)
    requires Normalize(value).Ok?
    ensures Normalize(Some(Normalize(value).value)) == Normalize(value)
    ensures |Normalize(value).value| <= MAX_ACCELERATOR_CHARS
  {
    var tokens := TrimmedTokens(Trim(value.value));
    var (mods, optional) := Scan(Classes(tokens)).value;
    var key := optional.value;
    ScanIffCounts(Classes(tokens), mods, optional);
    ScannedKeyIsNormal(tokens, mods, key);
    var printed := Selected(MODIFIER_ORDER, mods) + [key];
    SelectedAreWords(MODIFIER_ORDER, mods);
    JoinLength(MODIFIER_ORDER, mods, key);
    NamesLeaveRoom(mods);
    JoinParses(printed);
    PrintedCounts(mods, key);
    ScanIffCounts(Classes(printed), mods, Some(key));
  }

  // ---- The parser itself ----

  /** normalizeAccelerator. */
  method NormalizeAccelerator(value: Option<string>) returns (normal: Result<string, Code>)
    ensures normal == Normalize(value)
  {
    if value.None? || Trim(value.value) == [] { return Err(Required); }
    var trimmed := Trim(value.value);
    if |trimmed| > MAX_ACCELERATOR_CHARS { return Err(TooLong); }
    if !Printable(trimmed) { return Err(InvalidToken); }
    var tokens := TrimmedTokens(trimmed);
    if [] in tokens { return Err(InvalidToken); }
    var scanned := ScanTokens(tokens);
    if scanned.Err? { return Err(scanned.error); }
    var objection := Objection(scanned.value.0, scanned.value.1);
    if objection.Some? { return Err(objection.value); }
    normal := Ok(Print(scanned.value.0, scanned.value.1.value));
  }

  /** Its token loop, which stops at the first token it cannot use. */
  method ScanTokens(tokens: seq<string>) returns (scanned: Result<(set<Modifier>, Option<string>), Code>)
    ensures scanned == Scan(Classes(tokens))
  {
    hide Classify;
    var mods: set<Modifier>, primaryKey: Option<string>, i := {}, None, 0;
    while i < |tokens|
      invariant i <= |tokens| && Scan(Classes(tokens)[..i]) == Ok((mods, primaryKey))
    {
      var c := Classify(tokens[i]);
      assert Classes(tokens)[..i + 1][..i] == Classes(tokens)[..i];
      if c.Unknown? || (c.Mod? && c.m in mods) || (c.Key? && primaryKey.Some?) {
        FailedScanStays(Classes(tokens), i + 1);
        return Err(if c.Mod? then DuplicateModifier else if c.Key? then MultiplePrimaryKeys else InvalidToken);
      }
      if c.Mod? { mods := mods + {c.m}; } else { primaryKey := Some(c.name); }
      i := i + 1;
    }
    assert Classes(tokens)[..i] == Classes(tokens);
    scanned := Ok((mods, primaryKey));
  }

  lemma {:induction false} FailedScanStays(classes: seq<Class>, n: nat)
    requires n <= |classes| && Scan(classes[..n]).Err?
    ensures Scan(classes) == Scan(classes[..n])
    decreases |classes|
  {
    if n == |classes| {
      assert classes[..n] == classes;
    } else {
      var front := classes[..|classes| - 1];
      assert front[..n] == classes[..n];
      FailedScanStays(front, n);
    }
  }

  /** What is wrong with a text whose tokens do not scan is decided by the first token that does not
      fit: an unknown word, a modifier seen before, or a second key. */
  lemma FirstFaultDecides(classes: seq<Class>, n: nat)
    requires n < |classes| && Scan(classes[..n]).Ok? && Scan(classes[..n + 1]).Err?
    ensures var (mods, key) := Scan(classes[..n]).value;
            && (Scan(classes) == Err(InvalidToken) <==> classes[n].Unknown?)
            && (Scan(classes) == Err(DuplicateModifier) <==> classes[n].Mod? && classes[n].m in mods)
            && (Scan(classes) == Err(MultiplePrimaryKeys) <==> classes[n].Key? && key.Some?)
            && Scan(classes).Err? && Scan(classes).error in {InvalidToken, DuplicateModifier, MultiplePrimaryKeys}
  {
    FailedScanStays(classes, n + 1);
    assert classes[..n + 1][..n] == classes[..n];
  }
}
