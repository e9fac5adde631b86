/** Choosing how to open a file (lib/beniya/file_opener.rb): the application configured
    for the file's extension, the shell quoting of the path, and the command line run on
    each kind of host, with or without a line to jump to. Running the command is not
    modelled: each operation returns the command line it would hand to `system`. */
module FileOpener {
  import opened Strings

  // ---------------------------------------------------------------- the application

  /** `File.extname(path).downcase.sub('.', '')`: the extension without its dot. */
  function Extension(path: string): (ext: string)
    ensures Extname(path) == [] ==> ext == []
    ensures Extname(path) != [] ==> ext == Downcase(Extname(path))[1..]
    ensures '.' !in ext && '/' !in ext
  {
    var x := Extname(path);
    var e := Downcase(x);
    DowncaseKeeps(x, '/');
    assert x != [] ==> '.' !in e[1..] by {
      if x != [] {
        assert e[1..] == Downcase(x[1..]);
        DowncaseKeeps(x[1..], '.');
      }
    }
    RemoveFirst(e, '.')
  }

  /** Downcasing neither makes nor removes a character that is not a lower-case letter. */
  lemma DowncaseKeeps(x: string, c: char)
    requires !('a' <= c <= 'z') && !('A' <= c <= 'Z')
    ensures c in Downcase(x) <==> c in x
  {
    var d := Downcase(x);
    if c in d {
      var i :| 0 <= i < |d| && d[i] == c;
      assert x[i] == c;
    }
    if c in x {
      var i :| 0 <= i < |x| && x[i] == c;
      assert d[i] == c;
    }
  }

  /** `s.sub(c, '')` for a one-character pattern: the first `c` removed. */
  function RemoveFirst(s: string, c: char): (r: string)
    ensures c !in s ==> r == s
    ensures s != [] && s[0] == c ==> r == s[1..]
    ensures |r| == if c in s then |s| - 1 else |s|
  {
    if s == [] then s
    else if s[0] == c then s[1..]
    else [s[0]] + RemoveFirst(s[1..], c)
  }

  /** A key of the `applications` table: a list of extensions, `:default`, or any other
      key (which never matches an extension). */
  datatype AppKey = Extensions(list: seq<string>) | Default | OtherKey(name: string)

  predicate Handles(key: AppKey, ext: string) {
    key.Extensions? && ext in key.list
  }

  /** `applications[:default]`: the value of the `:default` key, if any. */
  function DefaultApplication(apps: seq<(AppKey, string)>): (app: Option<string>)
    ensures app.None? <==> forall i :: 0 <= i < |apps| ==> !apps[i].0.Default?
    ensures app.Some? ==> exists i :: 0 <= i < |apps| && apps[i].0.Default? && apps[i].1 == app.value
  {
    if apps == [] then None
    else if apps[0].0.Default? then Some(apps[0].1)
    else
      var r := DefaultApplication(apps[1..]);
      assert r.Some? ==> exists i :: 1 <= i < |apps| && apps[i].0.Default? && apps[i].1 == r.value by {
        if r.Some? {
          var i :| 0 <= i < |apps[1..]| && apps[1..][i].0.Default? && apps[1..][i].1 == r.value;
          assert apps[i + 1] == apps[1..][i];
        }
      }
      r
  }

  /** `find_application_for_file`: the application of the first extension list that
      holds the file's extension, else the default application, else `open`. */
  function FindApplication(apps: seq<(AppKey, string)>, path: string): (app: string)
    ensures forall i :: (0 <= i < |apps| && Handles(apps[i].0, Extension(path))
      && (forall j :: 0 <= j < i ==> !Handles(apps[j].0, Extension(path)))) ==> app == apps[i].1
    ensures (forall i :: 0 <= i < |apps| ==> !Handles(apps[i].0, Extension(path))) ==>
      app == DefaultApplication(apps).GetOr("open")
  {
    FirstHandler(apps, Extension(path), apps)
  }

  /** The scan of `applications.each`, over the entries not yet tried. */
  function FirstHandler(rest: seq<(AppKey, string)>, ext: string, apps: seq<(AppKey, string)>): (app: string)
    ensures forall i :: (0 <= i < |rest| && Handles(rest[i].0, ext)
      && (forall j :: 0 <= j < i ==> !Handles(rest[j].0, ext))) ==> app == rest[i].1
    ensures (forall i :: 0 <= i < |rest| ==> !Handles(rest[i].0, ext)) ==>
      app == DefaultApplication(apps).GetOr("open")
  {
    if rest == [] then DefaultApplication(apps).GetOr("open")
    else if Handles(rest[0].0, ext) then rest[0].1
    else
      var app := FirstHandler(rest[1..], ext, apps);
      assert forall i :: 1 <= i < |rest| ==> rest[1..][i - 1] == rest[i];
      app
  }

  /** The applications the configuration loader supplies when the user has none. */
  const DefaultApplications: seq<(AppKey, string)> := [
    (Extensions(["txt", "md", "rb", "py", "js", "html", "css", "json", "xml", "yaml", "yml"]), "code"),
    (Default, "open")
  ]

  /** With the loader's two entries, the scan answers the list's application for a
      listed extension and the default's otherwise. */
  lemma TwoEntryTable(apps: seq<(AppKey, string)>, ext: string)
    requires |apps| == 2 && apps[0].0.Extensions? && apps[1] == (Default, "open")
    ensures FirstHandler(apps, ext, apps) == if ext in apps[0].0.list then apps[0].1 else "open"
  {
    assert DefaultApplication(apps[1..]) == Some("open");
    if ext !in apps[0].0.list {
      assert forall i :: 0 <= i < |apps| ==> !Handles(apps[i].0, ext) by {
        assert !Handles(apps[0].0, ext) && !Handles(apps[1].0, ext);
      }
    }
  }

  /** The applications the loader supplies: the list first, then the default. */
  lemma DefaultApplicationsShape()
    ensures var apps := DefaultApplications;
      |apps| == 2 && apps[0].0.Extensions? && apps[0].1 == "code"
      && apps[1] == (Default, "open") && "md" in apps[0].0.list
  {
  }

  /** With those, a file whose extension (in any case) is on the list goes to `code`, as
      `notes/README.MD` does... */
  lemma ListedGoesToCode(path: string)
    requires Extension(path) in DefaultApplications[0].0.list
    ensures FindApplication(DefaultApplications, path) == "code"
  {
    DefaultApplicationsShape();
    TwoEntryTable(DefaultApplications, Extension(path));
  }

  /** ...and any other file to the default, `open`, as `photo.png` does. */
  lemma UnlistedGoesToDefault(path: string)
    requires Extension(path) !in DefaultApplications[0].0.list
    ensures FindApplication(DefaultApplications, path) == "open"
  {
    DefaultApplicationsShape();
    TwoEntryTable(DefaultApplications, Extension(path));
  }

  /** A file `dir/stem.ext` whose stem does not start with a dot has the extension `ext`,
      downcased. */
  lemma ExtensionOfFile(dir: string, stem: string, ext: string)
    requires dir == [] || dir[|dir| - 1] == '/'
    requires stem != [] && stem[0] != '.'
    requires '/' !in stem && '/' !in ext && '.' !in ext
    ensures Extension(dir + (stem + "." + ext)) == Downcase(ext)
  {
    var x := "." + ext;
    assert stem + "." + ext == stem + x;
    assert x[1..] == ext;
    ExtnameOfFile(dir, stem, x);
    var d := Downcase(x);
    assert d[1..] == Downcase(ext);
  }

  /** `File.extname` of `dir/stem.ext` is `.ext`. */
  lemma ExtnameOfFile(dir: string, stem: string, x: string)
    requires dir == [] || dir[|dir| - 1] == '/'
    requires stem != [] && stem[0] != '.'
    requires x != [] && x[0] == '.' && '/' !in stem && '/' !in x && '.' !in x[1..]
    ensures Extname(dir + (stem + x)) == x
  {
    var name := stem + x;
    assert '/' !in name;
    BasenameOfName(dir, name);
    assert name[0] == stem[0];
    assert DropLeadingDots(name) == name;
    assert name[|stem|..] == x;
    LastDot(stem, x);
  }

  lemma LastDot(stem: string, x: string)
    requires x != [] && x[0] == '.' && '.' !in x[1..]
    ensures LastIndexOf(stem + x, '.') == Some(|stem|)
  {
    var name := stem + x;
    assert forall i :: |stem| < i < |name| ==> name[i] == x[1..][i - |stem| - 1];
    LastIndexOfAt(name, '.', |stem|);
  }

  /** `notes/README.MD` has the extension `md`... */
  lemma MarkdownExtension(dir: string, stem: string, ext: string)
    requires dir == "notes/" && stem == "README" && ext == "MD"
    ensures Extension(dir + (stem + "." + ext)) == "md"
  {
    ExtensionOfFile(dir, stem, ext);
    var d := Downcase(ext);
    assert d[0] == 'm' && d[1] == 'd';
  }

  /** ...so it opens with `code`. */
  lemma MarkdownExample(dir: string, stem: string, ext: string)
    requires dir == "notes/" && stem == "README" && ext == "MD"
    ensures FindApplication(DefaultApplications, dir + (stem + "." + ext)) == "code"
  {
    MarkdownExtension(dir, stem, ext);
    DefaultApplicationsShape();
    ListedGoesToCode(dir + (stem + "." + ext));
  }

  lemma {:induction false} BasenameOfName(dir: string, name: string)
    requires dir == [] || dir[|dir| - 1] == '/'
    requires '/' !in name
    ensures Basename(dir + name) == name
    decreases |name|
  {
    if name == [] {
      assert dir + name == dir;
    } else {
      var init, last := name[..|name| - 1], name[|name| - 1];
      assert name == init + [last];
      assert '/' !in init by {
        NotInPrefix(name, init, '/');
      }
      BasenameOfName(dir, init);
      assert dir + name == (dir + init) + [last];
      BasenameSnoc(dir + init, last);
    }
  }

  /** A character missing from a string is missing from each of its prefixes. */
  lemma NotInPrefix(s: string, t: string, c: char)
    requires |t| <= |s| && s[..|t|] == t && c !in s
    ensures c !in t
  {
  }

  /** One more character that is not '/' extends the last component. */
  lemma BasenameSnoc(p: string, last: char)
    requires last != '/'
    ensures Basename(p + [last]) == Basename(p) + [last]
  {
    var q := p + [last];
    assert q[|q| - 1] == last;
    assert q[..|q| - 1] == p;
  }

  // ---------------------------------------------------------------- shell quoting

  predicate NeedsQuoting(arg: string) {
    ' ' in arg || '\'' in arg || '"' in arg
  }

  /** Every `"` preceded by a backslash. */
  function EscapeQuotes(s: string): string {
    ReplaceAll(s, "\"", "\\\"")
  }

  /** The escaping is Ruby's `argument.gsub('"', '\"')`: the replacement `\"` holds no
      escape, so `gsub` inserts it as written. */
  lemma EscapeQuotesIsGSub(s: string)
    ensures EscapeQuotes(s) == GSub(s, "\"", "\\\"")
  {
    var r := "\\\"";
    assert r[2..] == [];
    assert Inert(r);
    GSubInert(s, "\"", r);
  }

  /** The inverse: every `\"` read back as `"`. */
  function UnescapeQuotes(s: string): string {
    ReplaceAll(s, "\\\"", "\"")
  }

  /** `quote_shell_argument`: unchanged unless it holds a space or a quote; then wrapped
      in double quotes, each `"` escaped. */
  function QuoteShellArgument(arg: string): (q: string)
    ensures !NeedsQuoting(arg) ==> q == arg
    ensures NeedsQuoting(arg) ==>
      |q| >= |arg| + 2 && q[0] == '"' && q[|q| - 1] == '"' && UnescapeQuotes(q[1..|q| - 1]) == arg
    ensures NeedsQuoting(arg) ==> q == "\"" + GSub(arg, "\"", "\\\"") + "\""
    ensures NeedsQuoting(arg) ==>
      forall i :: 1 <= i < |q| - 1 && q[i] == '"' ==> i >= 2 && q[i - 1] == '\\'
  {
    if NeedsQuoting(arg) then
      var body := EscapeQuotes(arg);
      EscapeLength(arg);
      UnescapeAfterEscape(arg);
      EscapeQuotesIsGSub(arg);
      EscapedQuotesFollowBackslash(arg);
      var q := "\"" + body + "\"";
      assert q[1..|q| - 1] == body;
      assert forall i :: 1 <= i < |q| - 1 ==> q[i] == body[i - 1];
      q
    else arg
  }

  /** Inside the escaped text every quote comes right after a backslash. */
  lemma {:induction false} EscapedQuotesFollowBackslash(s: string)
    ensures forall i :: 0 <= i < |EscapeQuotes(s)| && EscapeQuotes(s)[i] == '"' ==>
      i >= 1 && EscapeQuotes(s)[i - 1] == '\\'
  {
    if s != [] {
      var rest := EscapeQuotes(s[1..]);
      EscapedQuotesFollowBackslash(s[1..]);
      EscapedStart(s[1..]);
      if "\"" <= s {
        assert EscapeQuotes(s) == "\\\"" + rest;
      } else {
        assert EscapeQuotes(s) == [s[0]] + rest;
        assert s[0] != '"';
      }
    }
  }

  lemma {:induction false} EscapeLength(s: string)
    ensures |EscapeQuotes(s)| >= |s|
  {
    if s != [] {
      EscapeLength(s[1..]);
      if !("\"" <= s) {
        assert EscapeQuotes(s) == [s[0]] + EscapeQuotes(s[1..]);
      } else {
        assert EscapeQuotes(s) == "\\\"" + EscapeQuotes(s[1..]);
      }
    }
  }

  /** An escaped string never starts with a quote: each quote got a backslash before it. */
  lemma EscapedStart(s: string)
    ensures EscapeQuotes(s) == [] || EscapeQuotes(s)[0] != '"'
  {
    if s != [] {
      if "\"" <= s {
        assert EscapeQuotes(s) == "\\\"" + EscapeQuotes(s[1..]);
      } else {
        assert EscapeQuotes(s) == [s[0]] + EscapeQuotes(s[1..]);
      }
    }
  }

  /** Escaping loses nothing: unescaping gives the argument back. */
  lemma {:induction false} UnescapeAfterEscape(s: string)
    ensures UnescapeQuotes(EscapeQuotes(s)) == s
  {
    if s != [] {
      var rest := EscapeQuotes(s[1..]);
      UnescapeAfterEscape(s[1..]);
      if s[0] == '"' {
        assert "\"" <= s;
        assert EscapeQuotes(s) == "\\\"" + rest;
        assert "\\\"" <= "\\\"" + rest;
        assert ("\\\"" + rest)[2..] == rest;
        assert UnescapeQuotes(EscapeQuotes(s)) == "\"" + UnescapeQuotes(rest);
        assert s == "\"" + s[1..];
      } else {
        assert !("\"" <= s);
        var e := [s[0]] + rest;
        assert EscapeQuotes(s) == e;
        EscapedStart(s[1..]);
        assert rest == [] || rest[0] != '"';
        assert |e| < 2 || e[1] != '"';
        assert !("\\\"" <= e);
        assert e[1..] == rest;
        assert UnescapeQuotes(e) == [s[0]] + UnescapeQuotes(rest);
        assert s == [s[0]] + s[1..];
      }
    }
  }

  // ---------------------------------------------------------------- the command line

  /** `host_os =~ /mswin|mingw|cygwin/`. */
  predicate IsWindowsHost(hostOs: string) {
    Contains(hostOs, "mswin") || Contains(hostOs, "mingw") || Contains(hostOs, "cygwin")
  }

  /** `host_os =~ /darwin/`. */
  predicate IsDarwinHost(hostOs: string) {
    Contains(hostOs, "darwin")
  }

  /** The Windows command: `start`, with the path quoted as is. */
  function StartCommand(path: string): string {
    "start \"\" \"" + path + "\""
  }

  /** The host's own opener for the application name `open`. */
  function SystemOpener(hostOs: string): string {
    if IsDarwinHost(hostOs) then "open" else "xdg-open"
  }

  /** `execute_command`'s command line. */
  function OpenCommand(app: string, path: string, hostOs: string): (cmd: string)
    ensures IsWindowsHost(hostOs) ==> cmd == StartCommand(path)
    ensures !IsWindowsHost(hostOs) ==>
      cmd == (if app == "open" then SystemOpener(hostOs) else app) + " " + QuoteShellArgument(path)
  {
    var quotedPath := QuoteShellArgument(path);
    if IsWindowsHost(hostOs) then StartCommand(path)
    else if IsDarwinHost(hostOs) then
      if app == "open" then "open " + quotedPath else app + " " + quotedPath
    else
      if app == "open" then "xdg-open " + quotedPath else app + " " + quotedPath
  }

  /** Off Windows the command ends with the path as one shell word from which the path
      reads back. */
  lemma OpenCommandEndsWithPath(app: string, path: string, hostOs: string)
    requires !IsWindowsHost(hostOs)
    ensures var cmd := OpenCommand(app, path, hostOs);
      var q := QuoteShellArgument(path);
      |cmd| > |q| && cmd[|cmd| - |q|..] == q && cmd[|cmd| - |q| - 1] == ' '
      && (if NeedsQuoting(path) then UnescapeQuotes(q[1..|q| - 1]) == path else q == path)
  {
    var cmd := OpenCommand(app, path, hostOs);
    var q := QuoteShellArgument(path);
    var program := if app == "open" then SystemOpener(hostOs) else app;
    assert cmd == program + " " + q;
    assert cmd[|cmd| - |q|..] == q;
  }

  /** `execute_command_with_line`'s command line: editors named like VS Code jump with
      `--goto path:line` (tested before vim), vim and nvim with `+line`; anything else
      drops the line and opens as `execute_command` would. */
  function OpenCommandWithLine(app: string, path: string, line: nat, hostOs: string): (cmd: string)
    ensures IsWindowsHost(hostOs) ==>
      cmd == if Contains(app, "code") then GotoCommand(app, path, line) else OpenCommand(app, path, hostOs)
    ensures !IsWindowsHost(hostOs) ==>
      cmd == if app == "open" then OpenCommand(app, path, hostOs)
        else if Contains(app, "code") then GotoCommand(app, path, line)
        else if Contains(app, "vim") then app + " +" + NatToString(line) + " " + QuoteShellArgument(path)
        else OpenCommand(app, path, hostOs)
  {
    var quotedPath := QuoteShellArgument(path);
    NvimContainsVim(app);
    if IsWindowsHost(hostOs) then
      if Contains(app, "code") then app + " --goto " + quotedPath + ":" + NatToString(line)
      else StartCommand(path)
    else if IsDarwinHost(hostOs) then
      if app == "open" then "open " + quotedPath
      else if Contains(app, "code") then app + " --goto " + quotedPath + ":" + NatToString(line)
      else if Contains(app, "vim") || Contains(app, "nvim") then app + " +" + NatToString(line) + " " + quotedPath
      else app + " " + quotedPath
    else
      if app == "open" then "xdg-open " + quotedPath
      else if Contains(app, "code") then app + " --goto " + quotedPath + ":" + NatToString(line)
      else if Contains(app, "vim") || Contains(app, "nvim") then app + " +" + NatToString(line) + " " + quotedPath
      else app + " " + quotedPath
  }

  function GotoCommand(app: string, path: string, line: nat): string {
    app + " --goto " + QuoteShellArgument(path) + ":" + NatToString(line)
  }

  /** The `nvim` test adds nothing: every name containing `nvim` contains `vim`. */
  lemma NvimContainsVim(app: string)
    ensures Contains(app, "nvim") ==> Contains(app, "vim")
  {
    if Contains(app, "nvim") {
      var i := ContainsWitness(app, "nvim");
      assert app[i + 1..i + 4] == "vim";
      ContainsAt(app, "vim", i + 1);
    }
  }

  /** An application with `code` in its name jumps to the line even if it also names
      vim; and the jump names the line as digits that read back as the line. */
  lemma CodeComesBeforeVim(path: string, line: nat, hostOs: string)
    requires !IsWindowsHost(hostOs)
    ensures var cmd := OpenCommandWithLine("code-vim", path, line, hostOs);
      var digits := NatToString(line);
      cmd == GotoCommand("code-vim", path, line)
      && cmd[|cmd| - |digits|..] == digits && DigitsValue(digits) == line
  {
    ContainsAt("code-vim", "code", 0);
    DigitsRoundTrip(line);
  }

  // ---------------------------------------------------------------- the entry points

  /** `open_file`: nothing is run, and the answer is false, for a path that does not
      exist or is a directory; otherwise the command for the file's application. The
      outcome of running it is not modelled. */
  function OpenFile(path: string, present: bool, isDirectory: bool,
                    apps: seq<(AppKey, string)>, hostOs: string): (cmd: Option<string>)
    ensures cmd.None? <==> !present || isDirectory
    ensures cmd.Some? ==> cmd.value == OpenCommand(FindApplication(apps, path), path, hostOs)
  {
    if !present then None
    else if isDirectory then None
    else Some(OpenCommand(FindApplication(apps, path), path, hostOs))
  }

  /** `open_file_with_line`: the same guards, then the command that jumps to the line. */
  function OpenFileWithLine(path: string, line: nat, present: bool, isDirectory: bool,
                            apps: seq<(AppKey, string)>, hostOs: string): (cmd: Option<string>)
    ensures cmd.None? <==> !present || isDirectory
    ensures cmd.Some? ==> cmd.value == OpenCommandWithLine(FindApplication(apps, path), path, line, hostOs)
  {
    if !present then None
    else if isDirectory then None
    else Some(OpenCommandWithLine(FindApplication(apps, path), path, line, hostOs))
  }

  /** Opening at a line differs from opening only for applications that can jump. */
  lemma WithLineIsPlainOpenOtherwise(path: string, line: nat, present: bool, isDirectory: bool,
                                     apps: seq<(AppKey, string)>, hostOs: string)
    requires var app := FindApplication(apps, path);
      !Contains(app, "code") && (IsWindowsHost(hostOs) || !Contains(app, "vim"))
    ensures OpenFileWithLine(path, line, present, isDirectory, apps, hostOs)
      == OpenFile(path, present, isDirectory, apps, hostOs)
  {
  }
}
