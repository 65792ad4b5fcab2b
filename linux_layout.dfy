/**
 * XKB rule-name detection (`detectXkbRuleNames` in
 * src/keyboard/common/linux_layout.cpp and the `XkbRuleNamesStrings` record
 * of linux_layout.hpp).
 *
 * The process environment is a map from variable name to value, and
 * /etc/default/keyboard is its sequence of lines (`None` when the file cannot
 * be opened). The three stages of the detection are the functions
 * `FromEnvironment`, `FromFile` and `FromLocale`; the method
 * `DetectXkbRuleNames` fills the record field by field as the source does and
 * is proved equal to their composition `Detect`.
 */
module LinuxLayout {
  import opened Base
  import opened LayoutText

  /** The five components of `struct xkb_rule_names`. */
  datatype XkbRuleNames = XkbRuleNames(rules: string, model: string, layout: string, variant: string, options: string)
  {
    /** `empty()`: no component is known. */
    predicate IsEmpty()
    {
      rules == [] && model == [] && layout == [] && variant == [] && options == []
    }
  }

  /** A default-constructed record. */
  const Unset := XkbRuleNames("", "", "", "", "")

  datatype Field = Rules | Model | Layout | Variant | Options

  function Get(n: XkbRuleNames, f: Field): string
  {
    match f
    case Rules => n.rules
    case Model => n.model
    case Layout => n.layout
    case Variant => n.variant
    case Options => n.options
  }

  function With(n: XkbRuleNames, f: Field, v: string): (r: XkbRuleNames)
    ensures Get(r, f) == v
    ensures forall g | g != f :: Get(r, g) == Get(n, g)
  {
    match f
    case Rules => n.(rules := v)
    case Model => n.(model := v)
    case Layout => n.(layout := v)
    case Variant => n.(variant := v)
    case Options => n.(options := v)
  }

  /** `empty()` holds exactly when every one of the five components is the empty string. */
  lemma EmptyIffNoField(n: XkbRuleNames)
    ensures n.IsEmpty() <==> forall f: Field :: Get(n, f) == []
  {
    if !n.IsEmpty() {
      if n.rules != [] { assert Get(n, Rules) != []; }
      else if n.model != [] { assert Get(n, Model) != []; }
      else if n.layout != [] { assert Get(n, Layout) != []; }
      else if n.variant != [] { assert Get(n, Variant) != []; }
      else { assert Get(n, Options) != []; }
    }
  }

  lemma UnsetIsEmpty()
    ensures Unset.IsEmpty()
    ensures forall f: Field :: Get(Unset, f) == []
  {
    EmptyIffNoField(Unset);
  }

  // ---------------------------------------------------------------------------
  // Inputs

  type Environment = map<string, string>

  /** `std::getenv`: the value of a variable, `None` when it is not set. */
  function Getenv(env: Environment, name: string): Option<string>
  {
    if name in env then Some(env[name]) else None
  }

  /** The environment variable read for each component. */
  function EnvName(f: Field): string
  {
    match f
    case Rules => "XKB_DEFAULT_RULES"
    case Model => "XKB_DEFAULT_MODEL"
    case Layout => "XKB_DEFAULT_LAYOUT"
    case Variant => "XKB_DEFAULT_VARIANT"
    case Options => "XKB_DEFAULT_OPTIONS"
  }

  /** The /etc/default/keyboard spelling of each component's key. */
  function ConfigName(f: Field): string
  {
    match f
    case Rules => "XKBRULES"
    case Model => "XKBMODEL"
    case Layout => "XKBLAYOUT"
    case Variant => "XKBVARIANT"
    case Options => "XKBOPTIONS"
  }

  // ---------------------------------------------------------------------------
  // Stage 1: XKB_DEFAULT_* environment variables

  /** What stage 1 copies into a component: the variable's value, or nothing when it is unset. */
  function RawEnvValue(env: Environment, f: Field): string
  {
    match Getenv(env, EnvName(f))
    case None => ""
    case Some(v) => v
  }

  /** The value stage 1 keeps for a component: the copied value, trimmed. */
  function EnvValue(env: Environment, f: Field): string
  {
    Trim(RawEnvValue(env, f))
  }

  function FromEnvironment(env: Environment): (n: XkbRuleNames)
    ensures forall f: Field :: Get(n, f) == EnvValue(env, f)
  {
    XkbRuleNames(EnvValue(env, Rules), EnvValue(env, Model), EnvValue(env, Layout),
                 EnvValue(env, Variant), EnvValue(env, Options))
  }

  // ---------------------------------------------------------------------------
  // Stage 2: /etc/default/keyboard

  predicate SomeFieldEmpty(n: XkbRuleNames)
  {
    n.rules == [] || n.model == [] || n.layout == [] || n.variant == [] || n.options == []
  }

  /** A `KEY=value` line of the file, with the key normalised and the value cleaned. */
  datatype Setting = Setting(key: string, value: string)

  /**
   * One line of the file: the text from the first `#` on is a comment; a
   * line without `=` or whose value is empty after trim, unquote and trim
   * again is ignored.
   */
  function ParseLine(line: string): (r: Option<Setting>)
    ensures '=' !in CutAt(line, '#') ==> r == None
    ensures r.Some? ==> r.value.value != [] && r.value.value == Trim(r.value.value)
  {
    var l := Trim(CutAt(line, '#'));
    if l == [] then None
    else
      var eq := FindChar(l, '=');
      if eq < 0 then None
      else
        var v := Trim(Unquote(Trim(l[eq + 1..])));
        if v == [] then None
        else
          TrimIdempotent(Unquote(Trim(l[eq + 1..])));
          TrimHasNoNewChars(CutAt(line, '#'), '=');
          Some(Setting(NormalKey(l[..eq]), v))
  }

  /** The component a normalised key sets: both the XKBxxx and the XKB_DEFAULT_xxx spellings count. */
  function FieldOfKey(key: string): Option<Field>
  {
    if key == ConfigName(Rules) || key == EnvName(Rules) then Some(Rules)
    else if key == ConfigName(Model) || key == EnvName(Model) then Some(Model)
    else if key == ConfigName(Layout) || key == EnvName(Layout) then Some(Layout)
    else if key == ConfigName(Variant) || key == EnvName(Variant) then Some(Variant)
    else if key == ConfigName(Options) || key == EnvName(Options) then Some(Options)
    else None
  }

  /** Whether a parsed line supplies a value for component `f`. */
  predicate Supplies(st: Option<Setting>, f: Field)
  {
    st.Some? && FieldOfKey(st.value.key) == Some(f)
  }

  /** One parsed line applied through `setIfEmpty`. */
  function ApplySetting(n: XkbRuleNames, st: Option<Setting>): XkbRuleNames
  {
    match st
    case None => n
    case Some(setting) =>
      match FieldOfKey(setting.key)
      case None => n
      case Some(f) => if Get(n, f) == [] then With(n, f, setting.value) else n
  }

  /** The parsed lines, applied in file order. */
  function ApplySettings(n: XkbRuleNames, sts: seq<Option<Setting>>): XkbRuleNames
    decreases |sts|
  {
    if sts == [] then n else ApplySetting(ApplySettings(n, sts[..|sts| - 1]), sts[|sts| - 1])
  }

  /** A parsed line never carries an empty value. */
  predicate ValuesNonEmpty(sts: seq<Option<Setting>>)
  {
    forall i | 0 <= i < |sts| && sts[i].Some? :: sts[i].value.value != []
  }

  function ParseLines(lines: seq<string>): (sts: seq<Option<Setting>>)
    ensures |sts| == |lines|
    ensures ValuesNonEmpty(sts)
  {
    seq(|lines|, i requires 0 <= i < |lines| => ParseLine(lines[i]))
  }

  /** The file is read only while some component is still missing, and only if it opens. */
  function FromFile(n: XkbRuleNames, file: Option<seq<string>>): XkbRuleNames
  {
    if SomeFieldEmpty(n) && file.Some? then ApplySettings(n, ParseLines(file.value)) else n
  }

  // ---------------------------------------------------------------------------
  // Stage 3: locale heuristic

  /** The first of LC_ALL, LC_MESSAGES, LANG that is set, even to the empty string. */
  function LocaleSource(env: Environment): Option<string>
  {
    if Getenv(env, "LC_ALL").Some? then Getenv(env, "LC_ALL")
    else if Getenv(env, "LC_MESSAGES").Some? then Getenv(env, "LC_MESSAGES")
    else Getenv(env, "LANG")
  }

  /** `lang_REGION.encoding@modifier` without its encoding and modifier: cut at the first `.`, then at the first `@`. */
  function LocaleBase(locale: string): (base: string)
    ensures '.' !in base && '@' !in base
  {
    CutAtKeepsOut(CutAt(locale, '.'), '@', '.');
    CutAt(CutAt(locale, '.'), '@')
  }

  /** Language and region: the text before and after the first `_`; no `_` means no region. */
  function SplitAtUnderscore(base: string): (r: (string, string))
    ensures '_' !in r.0
    ensures '_' in base ==> base == r.0 + "_" + r.1
    ensures '_' !in base ==> r == (base, "")
  {
    var us := FindChar(base, '_');
    if us >= 0 then
      assert base == base[..us] + "_" + base[us + 1..];
      (base[..us], base[us + 1..])
    else (base, "")
  }

  /** The layout table: English, Brazilian Portuguese, Danish and Swedish, otherwise the language itself. */
  function GuessLayout(lang: string, region: string): Option<string>
  {
    if lang == "en" then Some(if region == "GB" || region == "UK" then "gb" else "us")
    else if lang == "pt" && region == "BR" then Some("br")
    else if lang == "da" then Some("dk")
    else if lang == "sv" then Some("se")
    else if lang != [] then Some(lang)
    else None
  }

  /** The layout guessed from a locale string: lower-cased language, upper-cased region. */
  function LocaleLayout(locale: string): Option<string>
  {
    var parts := SplitAtUnderscore(LocaleBase(locale));
    GuessLayout(Lower(parts.0), Upper(parts.1))
  }

  function FromLocale(n: XkbRuleNames, env: Environment): XkbRuleNames
  {
    if n.layout != [] then n
    else
      match LocaleSource(env)
      case None => n
      case Some(locale) =>
        match LocaleLayout(locale)
        case None => n
        case Some(guess) => n.(layout := guess)
  }

  /** The whole detection: environment, then file, then locale. */
  function Detect(env: Environment, file: Option<seq<string>>): XkbRuleNames
  {
    FromLocale(FromFile(FromEnvironment(env), file), env)
  }

  // ---------------------------------------------------------------------------
  // The imperative detection

  /** `setIfEmpty`: the destination keeps its value unless it is empty. */
  method SetIfEmpty(dst: string, value: string) returns (r: string)
    ensures dst != [] ==> r == dst
    ensures dst == [] ==> r == value
  {
    r := dst;
    if dst == [] {
      r := value;
    }
  }

  method DetectXkbRuleNames(env: Environment, file: Option<seq<string>>) returns (out: XkbRuleNames)
    ensures out == Detect(env, file)
  {
    out := ReadEnvironment(env);

    if out.rules == [] || out.model == [] || out.layout == [] || out.variant == [] || out.options == [] {
      if file.Some? {
        out := ReadConfigLines(out, file.value);
      }
    }
    assert out == FromFile(FromEnvironment(env), file);
    ghost var filled := out;

    if out.layout == [] {
      var localeEnv := Getenv(env, "LC_ALL");
      if localeEnv.None? {
        localeEnv := Getenv(env, "LC_MESSAGES");
      }
      if localeEnv.None? {
        localeEnv := Getenv(env, "LANG");
      }
      assert localeEnv == LocaleSource(env);
      if localeEnv.Some? {
        var guess := GuessFromLocale(localeEnv.value);
        if guess.Some? {
          out := out.(layout := guess.value);
        }
      }
    }
    assert out == FromLocale(filled, env);
  }

  /** Step 1 of detectXkbRuleNames: copy each XKB_DEFAULT_* variable that is set, then trim all five. */
  method ReadEnvironment(env: Environment) returns (out: XkbRuleNames)
    ensures out == FromEnvironment(env)
  {
    out := Unset;
    if EnvName(Rules) in env {
      out := out.(rules := env[EnvName(Rules)]);
    }
    if EnvName(Model) in env {
      out := out.(model := env[EnvName(Model)]);
    }
    if EnvName(Layout) in env {
      out := out.(layout := env[EnvName(Layout)]);
    }
    if EnvName(Variant) in env {
      out := out.(variant := env[EnvName(Variant)]);
    }
    if EnvName(Options) in env {
      out := out.(options := env[EnvName(Options)]);
    }
    assert out == XkbRuleNames(RawEnvValue(env, Rules), RawEnvValue(env, Model), RawEnvValue(env, Layout),
                               RawEnvValue(env, Variant), RawEnvValue(env, Options));
    var t;
    t := TrimInPlace(out.rules);
    out := out.(rules := t);
    t := TrimInPlace(out.model);
    out := out.(model := t);
    t := TrimInPlace(out.layout);
    out := out.(layout := t);
    t := TrimInPlace(out.variant);
    out := out.(variant := t);
    t := TrimInPlace(out.options);
    out := out.(options := t);
  }

  /** The `while (std::getline(f, line))` loop of detectXkbRuleNames. */
  method ReadConfigLines(start: XkbRuleNames, lines: seq<string>) returns (out: XkbRuleNames)
    ensures out == ApplySettings(start, ParseLines(lines))
  {
    out := start;
    for i := 0 to |lines|
      invariant out == ApplySettings(start, ParseLines(lines[..i]))
    {
      ParseLinesStep(start, lines, i);
      var setting := ParseConfigLine(lines[i]);
      if setting.None? {
        continue;
      }
      var field := FieldOfKey(setting.value.key);
      if field.Some? {
        var r := SetIfEmpty(Get(out, field.value), setting.value.value);
        out := With(out, field.value, r);
      }
    }
    assert lines[..|lines|] == lines;
  }

  /**
   * The part of the loop body that reads one line: cut the comment, trim,
   * skip a blank line or one without `=`, normalise the key, and trim,
   * unquote and trim the value, skipping an empty value.
   */
  method ParseConfigLine(rawLine: string) returns (setting: Option<Setting>)
    ensures setting == ParseLine(rawLine)
  {
    var line := rawLine;
    var comment := FindChar(line, '#');
    if comment >= 0 {
      line := line[..comment];
    }
    assert line == CutAt(rawLine, '#');
    line := TrimInPlace(line);
    ghost var l := Trim(CutAt(rawLine, '#'));
    assert line == l;
    if line == [] {
      return None;
    }
    var eq := FindChar(line, '=');
    if eq < 0 {
      return None;
    }
    var key := NormalizeKey(line[..eq]);
    var val := line[eq + 1..];
    val := TrimInPlace(val);
    val := StripSurroundingQuotes(val);
    val := TrimInPlace(val);
    assert val == Trim(Unquote(Trim(l[eq + 1..])));
    if val == [] {
      return None;
    }
    assert key == NormalKey(l[..eq]);
    return Some(Setting(key, val));
  }

  /** The body of the locale heuristic, from the chosen variable's value to the layout it yields. */
  method GuessFromLocale(localeEnv: string) returns (guess: Option<string>)
    ensures guess == LocaleLayout(localeEnv)
  {
    var locale := localeEnv;
    var dot := FindChar(locale, '.');
    if dot >= 0 {
      locale := locale[..dot];
    }
    assert locale == CutAt(localeEnv, '.');
    var at := FindChar(locale, '@');
    if at >= 0 {
      locale := locale[..at];
    }
    assert locale == LocaleBase(localeEnv);
    var lang := locale;
    var region := "";
    var us := FindChar(locale, '_');
    if us >= 0 {
      lang := locale[..us];
      region := locale[us + 1..];
    }
    assert (lang, region) == SplitAtUnderscore(LocaleBase(localeEnv));
    lang := LowerInPlace(lang);
    region := UpperInPlace(region);
    guess := GuessLayout(lang, region);
  }

  // ---------------------------------------------------------------------------
  // Helpers about character membership

  /** Trimming only removes characters. */
  lemma TrimHasNoNewChars(s: string, c: char)
    ensures c in Trim(s) ==> c in s
  {
    TrimRemovesOuterSpace(s);
  }

  /** Cutting only removes characters. */
  lemma CutAtKeepsOut(s: string, c: char, d: char)
    requires d !in s
    ensures d !in CutAt(s, c)
  {
  }

  // ---------------------------------------------------------------------------
  // Properties

  /** Parsing one more line is applying one more setting. */
  lemma ParseLinesStep(n: XkbRuleNames, lines: seq<string>, i: int)
    requires 0 <= i < |lines|
    ensures ApplySettings(n, ParseLines(lines[..i + 1])) == ApplySetting(ApplySettings(n, ParseLines(lines[..i])), ParseLine(lines[i]))
  {
    var sts := ParseLines(lines[..i + 1]);
    assert sts[..i] == ParseLines(lines[..i]);
    assert sts[i] == ParseLine(lines[i]);
  }

  /** `i` is the first parsed line that supplies component `f`. */
  predicate IsFirstSupplier(sts: seq<Option<Setting>>, f: Field, i: int)
  {
    && 0 <= i < |sts|
    && Supplies(sts[i], f)
    && forall j | 0 <= j < i :: !Supplies(sts[j], f)
  }

  lemma GetApplySetting(n: XkbRuleNames, st: Option<Setting>, f: Field)
    ensures Get(ApplySetting(n, st), f) ==
      if Supplies(st, f) && Get(n, f) == [] then st.value.value else Get(n, f)
  {
  }

  /**
   * `setIfEmpty` over the lines: a component already known is never
   * overwritten; a missing one takes the value of the first line that
   * supplies it, and stays as it was when no line does.
   */
  lemma {:induction false} FirstSupplierWins(n: XkbRuleNames, sts: seq<Option<Setting>>, f: Field)
    requires ValuesNonEmpty(sts)
    ensures Get(n, f) != [] ==> Get(ApplySettings(n, sts), f) == Get(n, f)
    ensures Get(n, f) == [] ==>
      forall i | IsFirstSupplier(sts, f, i) :: Get(ApplySettings(n, sts), f) == sts[i].value.value
    ensures (forall i | 0 <= i < |sts| :: !Supplies(sts[i], f)) ==> Get(ApplySettings(n, sts), f) == Get(n, f)
    decreases |sts|
  {
    if sts != [] {
      var init := sts[..|sts| - 1];
      var last := sts[|sts| - 1];
      FirstSupplierWins(n, init, f);
      GetApplySetting(ApplySettings(n, init), last, f);
      assert forall j | 0 <= j < |init| :: init[j] == sts[j];
      if Get(n, f) == [] {
        forall i | IsFirstSupplier(sts, f, i)
          ensures Get(ApplySettings(n, sts), f) == sts[i].value.value
        {
          if i < |init| {
            assert IsFirstSupplier(init, f, i);
          } else {
            assert forall j | 0 <= j < |init| :: !Supplies(init[j], f);
          }
        }
      }
    }
  }

  /** Stage 3 writes at most the layout, and only when the layout is still missing. */
  lemma LocaleOnlyFillsLayout(n: XkbRuleNames, env: Environment)
    ensures forall f | f != Layout :: Get(FromLocale(n, env), f) == Get(n, f)
    ensures n.layout != [] ==> FromLocale(n, env) == n
    ensures n.layout == [] && FromLocale(n, env).layout != [] ==>
      LocaleSource(env).Some? && LocaleLayout(LocaleSource(env).value) == Some(FromLocale(n, env).layout)
  {
  }

  /** Stage 2 keeps every component that stage 1 found. */
  lemma FileKeepsKnown(n: XkbRuleNames, file: Option<seq<string>>, f: Field)
    requires Get(n, f) != []
    ensures Get(FromFile(n, file), f) == Get(n, f)
  {
    if SomeFieldEmpty(n) && file.Some? {
      FirstSupplierWins(n, ParseLines(file.value), f);
    }
  }

  /** A trimmed non-empty XKB_DEFAULT_* value is the final value of its component. */
  lemma EnvironmentWins(env: Environment, file: Option<seq<string>>, f: Field)
    requires EnvValue(env, f) != []
    ensures Get(Detect(env, file), f) == EnvValue(env, f)
  {
    var n := FromEnvironment(env);
    var m := FromFile(n, file);
    FileKeepsKnown(n, file, f);
    LocaleOnlyFillsLayout(m, env);
    assert Get(m, f) == EnvValue(env, f);
    if f == Layout {
      assert m.layout != [];
    }
  }

  /** Rules, model, variant and options come only from the environment and the file. */
  lemma OnlyLayoutFromLocale(env: Environment, file: Option<seq<string>>, f: Field)
    requires f != Layout
    ensures Get(Detect(env, file), f) == Get(FromFile(FromEnvironment(env), file), f)
  {
    var m := FromFile(FromEnvironment(env), file);
    LocaleOnlyFillsLayout(m, env);
    assert Detect(env, file) == FromLocale(m, env);
  }

  /** With all five components set by the environment the file is never read. */
  lemma FileIgnoredWhenEnvironmentComplete(env: Environment, file1: Option<seq<string>>, file2: Option<seq<string>>)
    requires forall f: Field :: EnvValue(env, f) != []
    ensures Detect(env, file1) == Detect(env, file2) == FromEnvironment(env)
  {
    var n := FromEnvironment(env);
    assert Get(n, Rules) != [] && Get(n, Model) != [] && Get(n, Layout) != [] && Get(n, Variant) != [] && Get(n, Options) != [];
  }

  /** A missing component is filled from the first line of the file that supplies it. */
  lemma FileFillsMissing(env: Environment, lines: seq<string>, f: Field, i: int)
    requires EnvValue(env, f) == []
    requires IsFirstSupplier(ParseLines(lines), f, i)
    ensures Get(FromFile(FromEnvironment(env), Some(lines)), f) == ParseLine(lines[i]).value.value
  {
    var n := FromEnvironment(env);
    FirstSupplierWins(n, ParseLines(lines), f);
    assert SomeFieldEmpty(n) by {
      match f
      case Rules =>
      case Model =>
      case Layout =>
      case Variant =>
      case Options =>
    }
  }

  /** A set-but-empty LC_ALL hides LC_MESSAGES and LANG, and leaves the layout missing. */
  lemma EmptyLcAllBlocksFallback(n: XkbRuleNames, env: Environment)
    requires "LC_ALL" in env && env["LC_ALL"] == ""
    ensures LocaleSource(env) == Some("")
    ensures FromLocale(n, env) == n
  {
    assert LocaleBase("") == "";
    assert Lower("") == "" && Upper("") == "";
  }

  /** LC_ALL wins over LC_MESSAGES, which wins over LANG. */
  lemma LocalePrecedence(env: Environment)
    ensures "LC_ALL" in env ==> LocaleSource(env) == Some(env["LC_ALL"])
    ensures "LC_ALL" !in env && "LC_MESSAGES" in env ==> LocaleSource(env) == Some(env["LC_MESSAGES"])
    ensures "LC_ALL" !in env && "LC_MESSAGES" !in env ==> LocaleSource(env) == Getenv(env, "LANG")
  {
  }

  /** The encoding and the modifier never influence the guess. */
  lemma LocaleIgnoresEncodingAndModifier(base: string, encoding: string, modifier: string)
    requires '.' !in base && '@' !in base
    ensures LocaleLayout(base + "." + encoding) == LocaleLayout(base)
    ensures LocaleLayout(base + "@" + modifier) == LocaleLayout(base)
  {
    assert LocaleBase(base) == base;
    CutAtDropsTail(base, '.', encoding);
    assert LocaleBase(base + "." + encoding) == base;
    var m := base + "@" + modifier;
    var p := FindChar(modifier, '.');
    if p < 0 {
      assert '.' !in m;
      assert CutAt(m, '.') == m;
      CutAtDropsTail(base, '@', modifier);
    } else {
      // A `.` inside the modifier cuts it short; the `@` cut then removes the rest.
      var head := base + "@" + modifier[..p];
      assert '.' !in head;
      assert m == head + "." + modifier[p + 1..];
      CutAtDropsTail(head, '.', modifier[p + 1..]);
      CutAtDropsTail(base, '@', modifier[..p]);
    }
    assert LocaleBase(m) == base;
  }

  /** `lang_REGION` is guessed from its lower-cased language and upper-cased region. */
  lemma LocaleLayoutOfParts(lang: string, region: string)
    requires '_' !in lang && '.' !in lang + region && '@' !in lang + region
    ensures LocaleLayout(lang + "_" + region) == GuessLayout(Lower(lang), Upper(region))
    ensures LocaleLayout(lang) == GuessLayout(Lower(lang), "")
  {
    var base := lang + "_" + region;
    assert '.' !in base && '@' !in base;
    assert LocaleBase(base) == base;
    var parts := SplitAtUnderscore(base);
    assert base[|lang|] == '_';
    assert '_' in base;
    assert |parts.0| == |lang| by {
      var k := FindChar(base, '_');
      assert base[..|lang|] == lang;
      assert base[..k] == parts.0;
    }
    assert parts.0 == lang;
    assert parts.1 == region;
    assert LocaleBase(lang) == lang by {
      assert '.' !in lang && '@' !in lang;
    }
    assert Upper("") == "";
  }

  /**
   * The locale table for `lang_REGION`, in any letter case: English gives
   * "gb" for GB and UK and "us" otherwise; Portuguese gives "br" for BR;
   * Danish "dk"; Swedish "se"; any other non-empty language is its own
   * (lower-cased) layout name; an empty language gives no guess.
   */
  lemma LocaleTable(lang: string, region: string)
    requires '_' !in lang && '.' !in lang + region && '@' !in lang + region
    ensures Lower(lang) == "en" ==>
      LocaleLayout(lang + "_" + region) == Some(if Upper(region) == "GB" || Upper(region) == "UK" then "gb" else "us")
    ensures Lower(lang) == "pt" ==>
      LocaleLayout(lang + "_" + region) == Some(if Upper(region) == "BR" then "br" else "pt")
    ensures Lower(lang) == "da" ==> LocaleLayout(lang + "_" + region) == Some("dk")
    ensures Lower(lang) == "sv" ==> LocaleLayout(lang + "_" + region) == Some("se")
    ensures Lower(lang) !in {"en", "pt", "da", "sv"} ==>
      LocaleLayout(lang + "_" + region) == if lang == [] then None else Some(Lower(lang))
  {
    LocaleLayoutOfParts(lang, region);
    KnownLanguages(Upper(region));
  }

  lemma KnownLanguages(region: string)
    ensures GuessLayout("en", region) == Some(if region == "GB" || region == "UK" then "gb" else "us")
    ensures GuessLayout("pt", region) == Some(if region == "BR" then "br" else "pt")
    ensures GuessLayout("da", region) == Some("dk")
    ensures GuessLayout("sv", region) == Some("se")
  {
    assert "pt"[0] != "en"[0];
    assert "da"[0] != "en"[0] && "da"[0] != "pt"[0];
    assert "sv"[0] != "en"[0] && "sv"[0] != "pt"[0] && "sv"[0] != "da"[0];
  }

  /** Everything from the first `#` on is ignored. */
  lemma CommentIgnored(text: string, comment: string)
    requires '#' !in text
    ensures ParseLine(text + "#" + comment) == ParseLine(text)
  {
    CutAtDropsTail(text, '#', comment);
    assert CutAt(text, '#') == text;
  }

  /**
   * A `KEY=value` line without a comment: the key is the normalised text before
   * the first `=`, the value the text after it trimmed, unquoted and trimmed
   * again; a value that ends up empty drops the line.
   */
  lemma ParseAssignment(k: string, v: string)
    requires '#' !in k + v && '=' !in k
    ensures ParseLine(k + "=" + v) ==
      (if Trim(Unquote(Trim(v))) == [] then None else Some(Setting(NormalKey(k), Trim(Unquote(Trim(v))))))
  {
    var line := k + "=" + v;
    assert '#' !in line by {
      assert forall i | 0 <= i < |line| :: line[i] == '=' || line[i] in k + v;
    }
    assert CutAt(line, '#') == line;
    var ks := TrimStart(k);
    TrimStartIsSuffix(k);
    assert '=' !in ks;
    TrimStartConcat(k, "=" + v);
    assert line == k + ("=" + v);
    TrimEndConcat(ks + "=", v);
    assert ks + ("=" + v) == (ks + "=") + v;
    var l := ks + "=" + TrimEnd(v);
    assert Trim(line) == l;
    assert l[|ks|] == '=';
    assert forall j | 0 <= j < |ks| :: l[j] == ks[j];
    assert FindChar(l, '=') == |ks|;
    assert l[..|ks|] == ks;
    assert l[|ks| + 1..] == TrimEnd(v);
    TrimStartIdempotent(k);
    assert NormalKey(ks) == NormalKey(k);
    TrimOfTrimEnd(v);
  }

  /**
   * With nothing set in the environment, a one-line file `XKBLAYOUT=<v>` sets
   * the layout to the cleaned value, and the locale no longer matters.
   */
  lemma LayoutLineFromFile(v: string)
    requires '#' !in v && Trim(Unquote(Trim(v))) != []
    ensures Get(Detect(map[], Some([ConfigName(Layout) + "=" + v])), Layout) == Trim(Unquote(Trim(v)))
  {
    var lines := [ConfigName(Layout) + "=" + v];
    LayoutLineParses(v);
    assert ParseLines(lines)[0] == ParseLine(lines[0]);
    assert IsFirstSupplier(ParseLines(lines), Layout, 0);
    EmptyEnvironment(Layout);
    FileFillsMissing(map[], lines, Layout, 0);
    LocaleOnlyFillsLayout(FromFile(FromEnvironment(map[]), Some(lines)), map[]);
  }

  lemma LayoutLineParses(v: string)
    requires '#' !in v && Trim(Unquote(Trim(v))) != []
    ensures Supplies(ParseLine(ConfigName(Layout) + "=" + v), Layout)
    ensures ParseLine(ConfigName(Layout) + "=" + v).value.value == Trim(Unquote(Trim(v)))
  {
    var k := ConfigName(Layout);
    assert '#' !in k + v by {
      assert forall i | 0 <= i < |k + v| :: (k + v)[i] in k || (k + v)[i] in v;
    }
    ParseAssignment(k, v);
    LayoutKeyIsNormal();
  }

  lemma LayoutKeyIsNormal()
    ensures NormalKey(ConfigName(Layout)) == ConfigName(Layout)
    ensures FieldOfKey(ConfigName(Layout)) == Some(Layout)
  {
    TrimFixesTrimmed(ConfigName(Layout));
    assert Upper(ConfigName(Layout)) == ConfigName(Layout);
  }

  lemma EmptyEnvironment(f: Field)
    ensures EnvValue(map[], f) == []
  {
    assert RawEnvValue(map[], f) == "";
  }

  /** The line `XKBLAYOUT="de"`: the quotes are stripped and the key is kept as written. */
  lemma QuotedLayoutLineParses()
    ensures ParseLine("XKBLAYOUT=\"de\"") == Some(Setting("XKBLAYOUT", "de"))
  {
    var k, v := "XKBLAYOUT", "\"de\"";
    assert "XKBLAYOUT=\"de\"" == k + "=" + v;
    assert Unquote(v) == "de" by {
      assert Quoted(v);
      assert v[1..|v| - 1] == "de";
    }
    assert Trim(Unquote(Trim(v))) == "de" by {
      TrimFixesTrimmed(v);
      TrimFixesTrimmed("de");
    }
    LayoutKeyIsNormal();
    ParseAssignment(k, v);
  }

  /** Each component accepts exactly its two key spellings. */
  lemma BothSpellings(f: Field, key: string)
    ensures FieldOfKey(ConfigName(f)) == Some(f)
    ensures FieldOfKey(EnvName(f)) == Some(f)
    ensures FieldOfKey(key) == Some(f) ==> key == ConfigName(f) || key == EnvName(f)
  {
  }
}
