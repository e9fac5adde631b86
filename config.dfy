/** Localisation (lib/beniya/config.rb): the English and Japanese message tables, the
    lookup with its two fallbacks, `%{name}` interpolation, the language detected from
    `BENIYA_LANG`, and the memoised, validated current language. */
module Config {
  import opened Strings

  const DefaultLanguage := "en"
  const AvailableLanguages: seq<string> := ["en", "ja"]

  // ---------------------------------------------------------------- the message tables
  // `MESSAGES` holds one table per language; each is written here as the groups of keys
  // the source lists, tried in turn.

  /** The first of two lookups that finds something. */
  function Either(a: Option<string>, b: Option<string>): (r: Option<string>)
    ensures r.Some? <==> a.Some? || b.Some?
    ensures a.Some? ==> r == a
    ensures a.None? ==> r == b
  {
    if a.Some? then a else b
  }

  /** English: Application messages. */
  function EnglishApp(key: string): (msg: Option<string>)
    ensures msg.Some? ==> msg.value != []
  {
    match key
    case "app.interrupted" => Some("beniya interrupted")
    case "app.error_occurred" => Some("Error occurred")
    case "app.terminated" => Some("beniya terminated")
    case _ => None
  }

  /** English: File operations. */
  function EnglishFile(key: string): (msg: Option<string>)
    ensures msg.Some? ==> msg.value != []
  {
    match key
    case "file.not_found" => Some("File not found")
    case "file.not_readable" => Some("File not readable")
    case "file.read_error" => Some("File read error")
    case "file.binary_file" => Some("Binary file")
    case "file.cannot_preview" => Some("Cannot preview")
    case "file.encoding_error" => Some("Character encoding error - cannot read file")
    case "file.preview_error" => Some("Preview error")
    case "file.error_prefix" => Some("Error")
    case _ => None
  }

  /** English: Key binding messages. */
  function EnglishKeybind(key: string): (msg: Option<string>)
    ensures msg.Some? ==> msg.value != []
  {
    match key
    case "keybind.invalid_key" => Some("invalid key")
    case "keybind.search_text" => Some("Search text: ")
    case "keybind.no_matches" => Some("No matches found.")
    case "keybind.press_any_key" => Some("Press any key to continue...")
    case _ => None
  }

  /** English: UI messages. */
  function EnglishUi(key: string): (msg: Option<string>)
    ensures msg.Some? ==> msg.value != []
  {
    match key
    case "ui.operation_prompt" => Some("Operation: ")
    case _ => None
  }

  /** English: Help text. */
  function EnglishHelp(key: string): (msg: Option<string>)
    ensures msg.Some? ==> msg.value != []
  {
    match key
    case "help.full" => Some("j/k:move h:back l:enter o/Space:open g/G:top/bottom r:refresh q:quit")
    case "help.short" => Some("j/k:move h:back l:enter o:open q:quit")
    case _ => None
  }

  /** English: Health check messages. */
  function EnglishHealth(key: string): (msg: Option<string>)
    ensures msg.Some? ==> msg.value != []
  {
    match key
    case "health.title" => Some("beniya Health Check")
    case "health.ruby_version" => Some("Ruby version")
    case "health.required_gems" => Some("Required gems")
    case "health.fzf" => Some("fzf (file search)")
    case "health.rga" => Some("rga (content search)")
    case "health.file_opener" => Some("System file opener")
    case "health.summary" => Some("Summary:")
    case "health.ok" => Some("OK")
    case "health.warnings" => Some("Warnings")
    case "health.errors" => Some("Errors")
    case "health.all_passed" => Some("All checks passed! beniya is ready to use.")
    case "health.critical_missing" => Some("Some critical components are missing. beniya may not work properly.")
    case "health.optional_missing" => Some("Some optional features are unavailable. Basic functionality will work.")
    case "health.all_gems_installed" => Some("All required gems installed")
    case "health.missing_gems" => Some("Missing gems")
    case "health.gem_install_instruction" => Some("Run: gem install")
    case "health.tool_not_found" => Some("not found")
    case "health.unknown_platform" => Some("Unknown platform")
    case "health.file_open_may_not_work" => Some("File opening may not work properly")
    case "health.macos_opener" => Some("macOS file opener")
    case "health.linux_opener" => Some("Linux file opener")
    case "health.windows_opener" => Some("Windows file opener")
    case "health.install_brew" => Some("Install: brew install")
    case "health.install_apt" => Some("Install: apt install")
    case "health.install_guide" => Some("Check installation guide for your platform")
    case "health.rga_releases" => Some("Install: https://github.com/phiresky/ripgrep-all/releases")
    case "health.ruby_upgrade_needed" => Some("Please upgrade Ruby to version 2.7.0 or higher")
    case _ => None
  }

  /** The `en` table of `MESSAGES`. */
  function EnglishMessage(key: string): Option<string> {
    Either(EnglishApp(key), Either(EnglishFile(key), Either(EnglishKeybind(key), Either(EnglishUi(key), Either(EnglishHelp(key), EnglishHealth(key))))))
  }

  /** Japanese: Application messages. */
  function JapaneseApp(key: string): (msg: Option<string>)
    ensures msg.Some? ==> msg.value != []
  {
    match key
    case "app.interrupted" => Some("beniyaを中断しました")
    case "app.error_occurred" => Some("エラーが発生しました")
    case "app.terminated" => Some("beniyaを終了しました")
    case _ => None
  }

  /** Japanese: File operations. */
  function JapaneseFile(key: string): (msg: Option<string>)
    ensures msg.Some? ==> msg.value != []
  {
    match key
    case "file.not_found" => Some("ファイルが見つかりません")
    case "file.not_readable" => Some("ファイルを読み取れません")
    case "file.read_error" => Some("ファイル読み込みエラー")
    case "file.binary_file" => Some("バイナリファイル")
    case "file.cannot_preview" => Some("プレビューできません")
    case "file.encoding_error" => Some("文字エンコーディングエラー - ファイルを読み取れません")
    case "file.preview_error" => Some("プレビューエラー")
    case "file.error_prefix" => Some("エラー")
    case _ => None
  }

  /** Japanese: Key binding messages. */
  function JapaneseKeybind(key: string): (msg: Option<string>)
    ensures msg.Some? ==> msg.value != []
  {
    match key
    case "keybind.invalid_key" => Some("無効なキー")
    case "keybind.search_text" => Some("検索テキスト: ")
    case "keybind.no_matches" => Some("マッチするものが見つかりません。")
    case "keybind.press_any_key" => Some("何かキーを押して続行...")
    case _ => None
  }

  /** Japanese: UI messages. */
  function JapaneseUi(key: string): (msg: Option<string>)
    ensures msg.Some? ==> msg.value != []
  {
    match key
    case "ui.operation_prompt" => Some("操作: ")
    case _ => None
  }

  /** Japanese: Help text. */
  function JapaneseHelp(key: string): (msg: Option<string>)
    ensures msg.Some? ==> msg.value != []
  {
    match key
    case "help.full" => Some("j/k:移動 h:戻る l:入る o/Space:開く g/G:先頭/末尾 r:更新 q:終了")
    case "help.short" => Some("j/k:移動 h:戻る l:入る o:開く q:終了")
    case _ => None
  }

  /** Japanese: Health check messages. */
  function JapaneseHealth(key: string): (msg: Option<string>)
    ensures msg.Some? ==> msg.value != []
  {
    match key
    case "health.title" => Some("beniya ヘルスチェック")
    case "health.ruby_version" => Some("Ruby バージョン")
    case "health.required_gems" => Some("必須 gem")
    case "health.fzf" => Some("fzf (ファイル検索)")
    case "health.rga" => Some("rga (内容検索)")
    case "health.file_opener" => Some("システムファイルオープナー")
    case "health.summary" => Some("サマリー:")
    case "health.ok" => Some("OK")
    case "health.warnings" => Some("警告")
    case "health.errors" => Some("エラー")
    case "health.all_passed" => Some("全てのチェックが完了しました！beniyaは使用可能です。")
    case "health.critical_missing" => Some("重要なコンポーネントが不足しています。beniyaは正常に動作しない可能性があります。")
    case "health.optional_missing" => Some("オプション機能が利用できません。基本機能は動作します。")
    case "health.all_gems_installed" => Some("全ての必須gemがインストールされています")
    case "health.missing_gems" => Some("不足しているgem")
    case "health.gem_install_instruction" => Some("実行: gem install")
    case "health.tool_not_found" => Some("が見つかりません")
    case "health.unknown_platform" => Some("不明なプラットフォーム")
    case "health.file_open_may_not_work" => Some("ファイルオープンが正常に動作しない可能性があります")
    case "health.macos_opener" => Some("macOS ファイルオープナー")
    case "health.linux_opener" => Some("Linux ファイルオープナー")
    case "health.windows_opener" => Some("Windows ファイルオープナー")
    case "health.install_brew" => Some("インストール: brew install")
    case "health.install_apt" => Some("インストール: apt install")
    case "health.install_guide" => Some("お使いのプラットフォーム向けのインストールガイドを確認してください")
    case "health.rga_releases" => Some("インストール: https://github.com/phiresky/ripgrep-all/releases")
    case "health.ruby_upgrade_needed" => Some("Rubyをバージョン2.7.0以上にアップグレードしてください")
    case _ => None
  }

  /** The `ja` table of `MESSAGES`. */
  function JapaneseMessage(key: string): Option<string> {
    Either(JapaneseApp(key), Either(JapaneseFile(key), Either(JapaneseKeybind(key), Either(JapaneseUi(key), Either(JapaneseHelp(key), JapaneseHealth(key))))))
  }

  /** `MESSAGES.dig(lang, key)`: nothing for a language without a table; the two tables
      define the same keys, and every text is non-empty. */
  function Table(lang: string, key: string): (msg: Option<string>)
    ensures lang !in AvailableLanguages ==> msg.None?
    ensures lang in AvailableLanguages ==> (msg.Some? <==> EnglishMessage(key).Some?)
    ensures msg.Some? ==> msg.value != []
  {
    TablesShareKeys(key);
    if lang == "en" then EnglishMessage(key)
    else if lang == "ja" then JapaneseMessage(key)
    else None
  }

  /** The two tables define the same keys, group by group. */
  lemma TablesShareKeys(key: string)
    ensures JapaneseMessage(key).Some? <==> EnglishMessage(key).Some?
  {
    SameAppKeys(key);
    SameFileKeys(key);
    SameKeybindKeys(key);
    SameUiKeys(key);
    SameHelpKeys(key);
    SameHealthKeys(key);
  }

  lemma SameAppKeys(key: string)
    ensures JapaneseApp(key).Some? <==> EnglishApp(key).Some?
  {
  }

  lemma SameFileKeys(key: string)
    ensures JapaneseFile(key).Some? <==> EnglishFile(key).Some?
  {
  }

  lemma SameKeybindKeys(key: string)
    ensures JapaneseKeybind(key).Some? <==> EnglishKeybind(key).Some?
  {
  }

  lemma SameUiKeys(key: string)
    ensures JapaneseUi(key).Some? <==> EnglishUi(key).Some?
  {
  }

  lemma SameHelpKeys(key: string)
    ensures JapaneseHelp(key).Some? <==> EnglishHelp(key).Some?
  {
  }

  lemma SameHealthKeys(key: string)
    ensures JapaneseHealth(key).Some? <==> EnglishHealth(key).Some?
  {
  }

  // ---------------------------------------------------------------- lookup

  /** `MESSAGES.dig(lang, key) || MESSAGES.dig(DEFAULT_LANGUAGE, key) || key`, with the
      fallbacks stated outright: for an available language the message is the
      language's own whenever the key is known at all (the tables share their keys), for
      any other language the English one, and the key itself when no table knows it. */
  function Lookup(lang: string, key: string): (msg: string)
    ensures lang in AvailableLanguages && EnglishMessage(key).Some? ==> Table(lang, key) == Some(msg)
    ensures lang !in AvailableLanguages && EnglishMessage(key).Some? ==> EnglishMessage(key) == Some(msg)
    ensures EnglishMessage(key).None? ==> msg == key
  {
    match Table(lang, key)
    case Some(m) => m
    case None =>
      match Table(DefaultLanguage, key)
      case Some(m) => m
      case None => key
  }

  // ---------------------------------------------------------------- interpolation

  function Placeholder(name: string): (p: string)
    ensures |p| == |name| + 3
  {
    "%{" + name + "}"
  }

  /** The `interpolations.each` loop of `message`: each `%{name}` replaced, in turn, by
      its value (already converted with `to_s`). */
  function Interpolate(msg: string, interpolations: seq<(string, string)>): string
    decreases |interpolations|
  {
    if interpolations == [] then msg
    else
      var (name, value) := interpolations[0];
      Interpolate(GSub(msg, Placeholder(name), value), interpolations[1..])
  }

  /** Interpolating in two rounds is interpolating once with both lists in order. */
  lemma {:induction false} InterpolateAppend(msg: string, a: seq<(string, string)>, b: seq<(string, string)>)
    ensures Interpolate(msg, a + b) == Interpolate(Interpolate(msg, a), b)
    decreases |a|
  {
    if a == [] {
      assert a + b == b;
    } else {
      assert (a + b)[0] == a[0] && (a + b)[1..] == a[1..] + b;
      InterpolateAppend(GSub(msg, Placeholder(a[0].0), a[0].1), a[1..], b);
    }
  }

  /** One interpolation puts the value exactly where the placeholder was: the message
      is the pieces around the placeholder joined by it, and the result is the same
      pieces joined by the value. */
  lemma InterpolateOne(msg: string, name: string, value: string)
    requires Inert(value)
    ensures var pieces := SplitOn(msg, Placeholder(name));
      && Interpolate(msg, [(name, value)]) == Join(pieces, value)
      && Join(pieces, Placeholder(name)) == msg
      && (forall k :: 0 <= k < |pieces| ==> !Contains(pieces[k], Placeholder(name)))
  {
    var p := Placeholder(name);
    assert Interpolate(msg, [(name, value)]) == Interpolate(GSub(msg, p, value), []);
    GSubIsJoinOfSplit(msg, p, value);
    SplitJoinRoundTrip(msg, p);
    forall k | 0 <= k < |SplitOn(msg, p)|
      ensures !Contains(SplitOn(msg, p)[k], p)
    {
      SplitPiecesAvoidPattern(msg, p, k);
    }
  }

  /** A message without the placeholder is left as it is. */
  lemma InterpolateAbsent(msg: string, name: string, value: string)
    requires !Contains(msg, Placeholder(name))
    ensures Interpolate(msg, [(name, value)]) == msg
  {
    GSubAbsent(msg, Placeholder(name), value);
  }

  /** A value is a `gsub` replacement, so Ruby reads its escapes: a value `\0` puts the
      placeholder itself back, `\\` becomes one backslash, and `\+` becomes nothing. */
  lemma InterpolateReadsEscapes(name: string)
    ensures Interpolate(Placeholder(name), [(name, "\\0")]) == Placeholder(name)
    ensures Interpolate(Placeholder(name), [(name, "a\\\\b")]) == "a\\b"
    ensures Interpolate(Placeholder(name), [(name, "\\+")]) == ""
  {
    GSubWholeMatch(Placeholder(name), Placeholder(name));
    GSubDoubleBackslash(Placeholder(name), Placeholder(name));
    GSubLastGroup(Placeholder(name), Placeholder(name));
  }

  // ---------------------------------------------------------------- language detection

  predicate IsSeparator(c: char) {
    c == '_' || c == '.'
  }

  /** The part of `s` before its first `_` or `.`. */
  function FirstSegment(s: string): (r: string)
    ensures r <= s
    ensures forall i :: 0 <= i < |r| ==> !IsSeparator(r[i])
    ensures |r| < |s| ==> IsSeparator(s[|r|])
  {
    if s == [] || IsSeparator(s[0]) then "" else [s[0]] + FirstSegment(s[1..])
  }

  /** `s.split(/[_.]/).first&.downcase`: no code when `s` is nothing but separators
      (`split` then gives no pieces), else the first piece downcased. */
  function LanguageCode(s: string): (code: Option<string>)
    ensures code.None? <==> forall i :: 0 <= i < |s| ==> IsSeparator(s[i])
    ensures code.Some? ==> code.value == Downcase(FirstSegment(s))
  {
    if forall i :: 0 <= i < |s| ==> IsSeparator(s[i]) then None else Some(Downcase(FirstSegment(s)))
  }

  /** `detect_language`, with the value of `BENIYA_LANG` (absent when unset) as input. */
  function DetectLanguage(beniyaLang: Option<string>): (lang: string)
    ensures lang in AvailableLanguages
    ensures lang == "ja" <==>
      beniyaLang.Some? && beniyaLang.value != [] && LanguageCode(beniyaLang.value) == Some("ja")
    ensures beniyaLang.None? || beniyaLang == Some("") ==> lang == DefaultLanguage
  {
    match beniyaLang
    case Some(envLang) =>
      if envLang != [] then
        var code := LanguageCode(envLang);
        if code.Some? && code.value in AvailableLanguages then code.value else DefaultLanguage
      else DefaultLanguage
    case None => DefaultLanguage
  }

  lemma {:induction false} FirstSegmentOfPrefix(code: string, rest: string)
    requires forall i :: 0 <= i < |code| ==> !IsSeparator(code[i])
    requires rest == [] || IsSeparator(rest[0])
    ensures FirstSegment(code + rest) == code
  {
    if code != [] {
      assert (code + rest)[1..] == code[1..] + rest;
      FirstSegmentOfPrefix(code[1..], rest);
    } else {
      assert code + rest == rest;
    }
  }

  /** A locale such as `ja_JP.UTF-8` or `EN`: the language part, in either case, before
      any `_` or `.` decides, whatever follows. */
  lemma DetectReadsLanguagePart(code: string, rest: string)
    requires Downcase(code) in AvailableLanguages
    requires rest == [] || IsSeparator(rest[0])
    ensures DetectLanguage(Some(code + rest)) == Downcase(code)
  {
    assert |code| == 2;
    assert !IsSeparator(code[0]) && !IsSeparator(code[1]) by {
      assert Downcase(code)[0] == DowncaseChar(code[0]) && Downcase(code)[1] == DowncaseChar(code[1]);
    }
    FirstSegmentOfPrefix(code, rest);
    assert (code + rest)[0] == code[0];
  }

  /** An unsupported language part falls back to English... */
  lemma DetectFrenchIsEnglish(env: string)
    requires env == "fr_FR.UTF-8"
    ensures DetectLanguage(Some(env)) == "en"
  {
    var code, rest := env[..2], env[2..];
    assert env == code + rest;
    assert code[0] == 'f' && code[1] == 'r' && rest[0] == '_';
    FirstSegmentOfPrefix(code, rest);
    var d := Downcase(code);
    assert d[0] == 'f';
    assert d !in AvailableLanguages by {
      assert d != "en" && d != "ja";
    }
  }

  /** ...a Japanese locale is read as Japanese... */
  lemma DetectJapaneseLocale(env: string)
    requires env == "ja_JP.UTF-8"
    ensures DetectLanguage(Some(env)) == "ja"
  {
    var code, rest := env[..2], env[2..];
    assert env == code + rest;
    assert code[0] == 'j' && code[1] == 'a' && rest[0] == '_';
    var d := Downcase(code);
    assert d == "ja" by {
      assert d[0] == 'j' && d[1] == 'a';
    }
    DetectReadsLanguagePart(code, rest);
  }

  /** ...and a value that starts with a separator has an empty first piece, which no
      table claims. */
  lemma DetectLeadingSeparator(env: string)
    requires env == "_ja"
    ensures DetectLanguage(Some(env)) == "en"
  {
    assert IsSeparator(env[0]) && !IsSeparator(env[1]);
    assert FirstSegment(env) == "";
  }

  /** `available_languages`: a fresh copy of the list, so callers cannot change it. */
  function AvailableLanguagesCopy(): (langs: seq<string>)
    ensures langs == ["en", "ja"]
    ensures DefaultLanguage in langs
    ensures forall l :: l in langs <==> (l == "en" || l == "ja")
  {
    AvailableLanguages
  }

  // ---------------------------------------------------------------- the class-level state

  datatype Assignment = Assigned | ArgumentError(message: string)

  /** The class-level `@current_language` of `Config`: unset (absent) until first read
      or after a reset, and otherwise one of the available languages. */
  class Config {
    var currentLanguage: Option<string>

    predicate Valid()
      reads this
    {
      currentLanguage.Some? ==> currentLanguage.value in AvailableLanguages
    }

    constructor ()
      ensures currentLanguage.None? && Valid()
    {
      currentLanguage := None;
    }

    /** `current_language`: the stored language, or, when none is stored yet, the
        detected one, which is then stored. */
    method CurrentLanguage(beniyaLang: Option<string>) returns (lang: string)
      requires Valid()
      modifies this
      ensures Valid() && lang in AvailableLanguages
      ensures currentLanguage == Some(lang)
      ensures old(currentLanguage).Some? ==> lang == old(currentLanguage).value
      ensures old(currentLanguage).None? ==> lang == DetectLanguage(beniyaLang)
    {
      if currentLanguage.None? {
        currentLanguage := Some(DetectLanguage(beniyaLang));
      }
      lang := currentLanguage.value;
    }

    /** `current_language=`: an available language is stored; anything else is refused
        with an `ArgumentError` naming the choices, and nothing changes. */
    method SetCurrentLanguage(lang: string) returns (outcome: Assignment)
      requires Valid()
      modifies this
      ensures Valid()
      ensures lang in AvailableLanguages ==> outcome == Assigned && currentLanguage == Some(lang)
      ensures lang !in AvailableLanguages ==>
        outcome == ArgumentError("Unsupported language: " + lang + ". Available: en, ja")
        && currentLanguage == old(currentLanguage)
    {
      if lang in AvailableLanguages {
        currentLanguage := Some(lang);
        outcome := Assigned;
      } else {
        assert Join(AvailableLanguages, ", ") == "en" + ", " + Join(["ja"], ", ");
        outcome := ArgumentError("Unsupported language: " + lang + ". Available: " + Join(AvailableLanguages, ", "));
      }
    }

    /** `reset_language!`: forget the language, so the next read detects it again. */
    method ResetLanguage()
      modifies this
      ensures currentLanguage.None? && Valid()
    {
      currentLanguage := None;
    }

    /** `message`: the message of the current language (read as `current_language`
        does), interpolated. */
    method Message(key: string, interpolations: seq<(string, string)>, beniyaLang: Option<string>)
      returns (msg: string)
      requires Valid()
      modifies this
      ensures Valid() && currentLanguage.Some?
      ensures old(currentLanguage).Some? ==> currentLanguage == old(currentLanguage)
      ensures old(currentLanguage).None? ==> currentLanguage == Some(DetectLanguage(beniyaLang))
      ensures msg == Interpolate(Lookup(currentLanguage.value, key), interpolations)
    {
      var lang := CurrentLanguage(beniyaLang);
      msg := Lookup(lang, key);
      var i := 0;
      while i < |interpolations|
        invariant i <= |interpolations|
        invariant Interpolate(msg, interpolations[i..]) == Interpolate(Lookup(lang, key), interpolations)
      {
        var (placeholder, value) := interpolations[i];
        assert interpolations[i..][1..] == interpolations[i + 1..];
        msg := GSub(msg, "%{" + placeholder + "}", value);
        i := i + 1;
      }
    }
  }

  /** The examples the tests check: English by default, Japanese once set, the key
      itself for a key neither table knows, and English for a language without a table. */
  lemma EnglishByDefault()
    ensures Lookup("en", "app.interrupted") == "beniya interrupted"
  {
  }

  lemma JapaneseWhenSet()
    ensures Lookup("ja", "app.interrupted") == "beniyaを中断しました"
  {
  }

  lemma UnknownKeyIsItself(key: string)
    requires key == "nonexistent.key"
    ensures Lookup("ja", key) == key
  {
  }

  lemma UnknownLanguageIsEnglish()
    ensures Lookup("fr", "help.short") == "j/k:move h:back l:enter o:open q:quit"
  {
  }
}
