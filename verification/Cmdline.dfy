/** The classification of processes by /proc/<pid>/cmdline. Chromium leaves two layouts there: arguments separated by
    NULs, and, for processes forked by the zygote, one string separated by spaces. */
module Cmdline {
  import opened Options
  import opened Strings

  const TYPE_FLAG := "--type="
  const NETWORK_SERVICE := "network.mojom.NetworkService"
  const CRASHPAD := "chrome_crashpad"
  const CROCOCHROME := "crocochrome"

  predicate IsSeparator(c: char) { c == ' ' || c == '\0' }

  predicate NoSeparator(s: string) { forall c :: c in s ==> !IsSeparator(c) }

  // Up to the first separator, or the whole string.
  function FirstWord(s: string): (w: string)
    ensures |w| <= |s| && w == s[..|w|] && NoSeparator(w) && (|w| < |s| ==> IsSeparator(s[|w|]))
  {
    if s == [] || IsSeparator(s[0]) then [] else [s[0]] + FirstWord(s[1..])
  }

  // filepath.Base
  function StripSlashes(path: string): string {
    if path != [] && path[|path| - 1] == '/' then StripSlashes(path[..|path| - 1]) else path
  }

  function AfterLastSlash(path: string): string {
    if path == [] || path[|path| - 1] == '/' then []
    else AfterLastSlash(path[..|path| - 1]) + [path[|path| - 1]]
  }

  function Base(path: string): string {
    if path == [] then "."
    else
      var name := AfterLastSlash(StripSlashes(path));
      if name == [] then "/" else name
  }

  // From the value of the flag.
  function ByFlag(value: string, network: bool): string {
    if value == "utility" && network then "network-service" else value
  }

  // From the first argument, if there is no flag.
  function ByName(path: string, crashpad: bool, crocochrome: bool): string {
    if crashpad then "crashpad"
    else if Base(path) == "tini" then "tini"
    else if crocochrome then "crocochrome"
    else "browser"
  }

  // The type of a process whose cmdline is raw.
  function Classify(raw: string): string {
    match Index(raw, TYPE_FLAG)
    case Some(i) => ByFlag(FirstWord(raw[i + |TYPE_FLAG|..]), Contains(raw, NETWORK_SERVICE))
    case None => ByName(FirstWord(raw), Contains(raw, CRASHPAD), Contains(raw, CROCOCHROME))
  }

  // chromiumProcessType; the cmdline is missing if it cannot be read.
  function ProcessType(cmdline: Option<string>): string {
    match cmdline
    case None => "unknown"
    case Some(raw) => Classify(raw)
  }

  // ---- Layout independence

  // b is a with some separators replaced by other separators.
  ghost predicate SameLayout(a: string, b: string) {
    && |a| == |b|
    && forall i :: 0 <= i < |a| ==> a[i] == b[i] || (IsSeparator(a[i]) && IsSeparator(b[i]))
  }

  lemma OccurrenceIsSame(a: string, b: string, pat: string, i: nat)
    requires SameLayout(a, b) && NoSeparator(pat) && OccursAt(a, pat, i)
    ensures OccursAt(b, pat, i)
  {
    forall k | 0 <= k < |pat|
      ensures b[i + k] == pat[k]
    {
      assert a[i + k] == a[i..i + |pat|][k] == pat[k];
      assert pat[k] in pat;
    }
    assert b[i..i + |pat|] == pat;
  }

  lemma IndexIsSame(a: string, b: string, pat: string)
    requires SameLayout(a, b) && NoSeparator(pat)
    ensures Index(a, pat) == Index(b, pat)
  {
    IndexIsFirst(a, pat);
    forall j: nat
      ensures OccursAt(a, pat, j) <==> OccursAt(b, pat, j)
    {
      if OccursAt(a, pat, j) {
        OccurrenceIsSame(a, b, pat, j);
      }
      if OccursAt(b, pat, j) {
        OccurrenceIsSame(b, a, pat, j);
      }
    }
    FirstIsUnique(b, pat, Index(a, pat));
  }

  lemma FirstWordIsSame(a: string, b: string)
    requires SameLayout(a, b)
    ensures FirstWord(a) == FirstWord(b)
  {
    var v, w := FirstWord(a), FirstWord(b);
    FirstWordIsShorter(a, b);
    FirstWordIsShorter(b, a);
    assert v == w;
  }

  lemma FirstWordIsShorter(a: string, b: string)
    requires SameLayout(a, b)
    ensures |FirstWord(a)| <= |FirstWord(b)| && forall i :: 0 <= i < |FirstWord(a)| ==> FirstWord(a)[i] == b[i]
  {
    var v, w := FirstWord(a), FirstWord(b);
    forall i | 0 <= i < |v|
      ensures v[i] == a[i] == b[i] && !IsSeparator(b[i])
    {
      assert v[i] in v;
    }
  }

  lemma PatternsHaveNoSeparator()
    ensures NoSeparator(TYPE_FLAG) && NoSeparator(NETWORK_SERVICE) && NoSeparator(CRASHPAD) && NoSeparator(CROCOCHROME)
  {
  }

  /** For every cmdline, replacing any of its NULs by spaces and any of its spaces by NULs leaves the process type
      as it is, in every branch of the classification. */
  lemma LayoutDoesNotMatter(a: string, b: string)
    requires SameLayout(a, b)
    ensures Classify(a) == Classify(b)
  {
    PatternsHaveNoSeparator();
    IndexIsSame(a, b, TYPE_FLAG);
    IndexIsSame(a, b, NETWORK_SERVICE);
    IndexIsSame(a, b, CRASHPAD);
    IndexIsSame(a, b, CROCOCHROME);
    match Index(a, TYPE_FLAG)
    case Some(i) => FirstWordIsSame(a[i + |TYPE_FLAG|..], b[i + |TYPE_FLAG|..]);
    case None => FirstWordIsSame(a, b);
  }

  // ---- The separator at the end

  lemma OccurrenceBeforeEnd(s: string, c: char, pat: string, i: nat)
    requires IsSeparator(c) && NoSeparator(pat) && pat != []
    ensures OccursAt(s + [c], pat, i) <==> OccursAt(s, pat, i)
  {
    if i + |pat| <= |s| {
      assert (s + [c])[i..i + |pat|] == s[i..i + |pat|];
    } else if i + |pat| == |s| + 1 {
      assert (s + [c])[i..i + |pat|][|pat| - 1] == c;
      assert pat[|pat| - 1] in pat;
    }
  }

  lemma IndexBeforeEnd(s: string, c: char, pat: string)
    requires IsSeparator(c) && NoSeparator(pat) && pat != []
    ensures Index(s + [c], pat) == Index(s, pat)
  {
    IndexIsFirst(s, pat);
    forall j: nat
      ensures OccursAt(s + [c], pat, j) <==> OccursAt(s, pat, j)
    {
      OccurrenceBeforeEnd(s, c, pat, j);
    }
    FirstIsUnique(s + [c], pat, Index(s, pat));
  }

  lemma {:induction false} FirstWordBeforeEnd(s: string, c: char)
    requires IsSeparator(c)
    ensures FirstWord(s + [c]) == FirstWord(s)
  {
    if s != [] && !IsSeparator(s[0]) {
      FirstWordBeforeEnd(s[1..], c);
      assert (s + [c])[1..] == s[1..] + [c];
    }
  }

  // What the classification looks at.
  function Marks(raw: string): (Option<nat>, bool, bool, bool) {
    (Index(raw, TYPE_FLAG), Contains(raw, NETWORK_SERVICE), Contains(raw, CRASHPAD), Contains(raw, CROCOCHROME))
  }

  lemma MarksBeforeEnd(s: string, c: char)
    requires IsSeparator(c)
    ensures Marks(s + [c]) == Marks(s)
  {
    PatternsHaveNoSeparator();
    IndexBeforeEnd(s, c, TYPE_FLAG);
    IndexBeforeEnd(s, c, NETWORK_SERVICE);
    IndexBeforeEnd(s, c, CRASHPAD);
    IndexBeforeEnd(s, c, CROCOCHROME);
  }

  // It does not matter either whether the last argument is terminated.
  lemma LastSeparatorDoesNotMatter(s: string, c: char)
    requires IsSeparator(c)
    ensures Classify(s + [c]) == Classify(s)
  {
    MarksBeforeEnd(s, c);
    assert Index(s + [c], TYPE_FLAG) == Index(s, TYPE_FLAG);
    match Index(s, TYPE_FLAG)
    case Some(i) =>
      var j := i + |TYPE_FLAG|;
      assert (s + [c])[j..] == s[j..] + [c];
      FirstWordBeforeEnd(s[j..], c);
      assert Contains(s + [c], NETWORK_SERVICE) == Contains(s, NETWORK_SERVICE);
    case None =>
      FirstWordBeforeEnd(s, c);
      assert Contains(s + [c], CRASHPAD) == Contains(s, CRASHPAD);
      assert Contains(s + [c], CROCOCHROME) == Contains(s, CROCOCHROME);
  }

  // ---- Recovery of the type from the argument list

  // The layout that the kernel gives a command line.
  function Render(args: seq<string>): string {
    if args == [] then [] else args[0] + ['\0'] + Render(args[1..])
  }

  lemma {:induction false} RenderSplit(a: seq<string>, b: seq<string>)
    ensures Render(a + b) == Render(a) + Render(b)
  {
    if a == [] {
      assert a + b == b;
    } else {
      RenderSplit(a[1..], b);
      assert (a + b)[1..] == a[1..] + b;
    }
  }

  // A pattern without separators cannot reach across one.
  lemma OccurrenceOnOneSide(x: string, c: char, y: string, pat: string, i: nat)
    requires IsSeparator(c) && NoSeparator(pat) && pat != []
    ensures OccursAt(x + [c] + y, pat, i) <==> OccursAt(x, pat, i) || (i > |x| && OccursAt(y, pat, i - |x| - 1))
  {
    var s := x + [c] + y;
    if i + |pat| <= |x| {
      assert s[i..i + |pat|] == x[i..i + |pat|];
    } else if i > |x| && i + |pat| <= |s| {
      assert s[i..i + |pat|] == y[i - |x| - 1..i - |x| - 1 + |pat|];
    } else if i <= |x| && i + |pat| <= |s| {
      assert s[i..i + |pat|][|x| - i] == c;
      assert pat[|x| - i] in pat;
    }
  }

  lemma ContainsOnOneSide(x: string, c: char, y: string, pat: string)
    requires IsSeparator(c) && NoSeparator(pat) && pat != []
    ensures Contains(x + [c] + y, pat) <==> Contains(x, pat) || Contains(y, pat)
  {
    var s := x + [c] + y;
    if Contains(s, pat) {
      var i := Index(s, pat).value;
      OccurrenceOnOneSide(x, c, y, pat, i);
      if OccursAt(x, pat, i) {
        ContainsAt(x, pat, i);
      } else {
        ContainsAt(y, pat, i - |x| - 1);
      }
    }
    if Contains(x, pat) {
      var i := Index(x, pat).value;
      OccurrenceOnOneSide(x, c, y, pat, i);
      ContainsAt(s, pat, i);
    }
    if Contains(y, pat) {
      var i := Index(y, pat).value;
      OccurrenceOnOneSide(x, c, y, pat, i + |x| + 1);
      ContainsAt(s, pat, i + |x| + 1);
    }
  }

  predicate AnyContains(args: seq<string>, pat: string) {
    exists j :: 0 <= j < |args| && Contains(args[j], pat)
  }

  lemma {:induction false} RenderContains(args: seq<string>, pat: string)
    requires NoSeparator(pat) && pat != []
    ensures Contains(Render(args), pat) <==> AnyContains(args, pat)
  {
    if args == [] {
      IndexIsFirst([], pat);
    } else {
      ContainsOnOneSide(args[0], '\0', Render(args[1..]), pat);
      RenderContains(args[1..], pat);
      assert forall j :: 0 < j < |args| ==> args[j] == args[1..][j - 1];
    }
  }

  lemma {:induction false} RenderEnds(args: seq<string>)
    requires args != []
    ensures Render(args) != [] && IsSeparator(Render(args)[|Render(args)| - 1])
  {
    if |args| > 1 {
      RenderEnds(args[1..]);
    }
  }

  // The first --type= is where it was put.
  lemma FlagIsFirst(before: string, rest: string)
    requires before == [] || IsSeparator(before[|before| - 1])
    requires !Contains(before, TYPE_FLAG)
    ensures Index(before + TYPE_FLAG + rest, TYPE_FLAG) == Some(|before|)
  {
    var s := before + TYPE_FLAG + rest;
    assert s[|before|..|before| + |TYPE_FLAG|] == TYPE_FLAG;
    PatternsHaveNoSeparator();
    forall j: nat | j < |before|
      ensures !OccursAt(s, TYPE_FLAG, j)
    {
      var x := before[..|before| - 1];
      assert s == x + [before[|before| - 1]] + (TYPE_FLAG + rest);
      OccurrenceOnOneSide(x, before[|before| - 1], TYPE_FLAG + rest, TYPE_FLAG, j);
      if OccursAt(x, TYPE_FLAG, j) {
        assert before[j..j + |TYPE_FLAG|] == x[j..j + |TYPE_FLAG|];
        ContainsAt(before, TYPE_FLAG, j);
      }
    }
    FirstIsUnique(s, TYPE_FLAG, Some(|before|));
  }

  lemma {:induction false} WordIsValue(value: string, rest: string)
    requires NoSeparator(value)
    ensures FirstWord(value + ['\0'] + rest) == value
  {
    if value == [] {
      assert value + ['\0'] + rest == ['\0'] + rest;
    } else {
      assert value[0] in value;
      WordIsValue(value[1..], rest);
      assert (value + ['\0'] + rest)[1..] == value[1..] + ['\0'] + rest;
    }
  }

  lemma RenderedFlagIsFound(args: seq<string>, k: nat, value: string)
    requires k < |args| && args[k] == TYPE_FLAG + value && NoSeparator(value)
    requires !AnyContains(args[..k], TYPE_FLAG)
    ensures var i := Index(Render(args), TYPE_FLAG);
            && i.Some? && i.value + |TYPE_FLAG| <= |Render(args)|
            && FirstWord(Render(args)[i.value + |TYPE_FLAG|..]) == value
  {
    var before, after := Render(args[..k]), Render(args[k + 1..]);
    assert args == args[..k] + args[k..] && args[k..][1..] == args[k + 1..];
    RenderSplit(args[..k], args[k..]);
    var rest := value + ['\0'] + after;
    assert Render(args) == before + TYPE_FLAG + rest;
    PatternsHaveNoSeparator();
    RenderContains(args[..k], TYPE_FLAG);
    if k > 0 {
      RenderEnds(args[..k]);
    }
    FlagIsFirst(before, rest);
    assert Render(args)[|before| + |TYPE_FLAG|..] == rest;
    WordIsValue(value, after);
  }

  // raw shows the arguments, with any separators between them and with or without one at the end.
  ghost predicate Shows(raw: string, args: seq<string>) {
    SameLayout(raw, Render(args)) || SameLayout(raw + ['\0'], Render(args))
  }

  ghost predicate AnyHas(args: seq<string>, pat: string) {
    exists j :: 0 <= j < |args| && Has(args[j], pat)
  }

  lemma AnyContainsIsAnyHas(args: seq<string>, pat: string)
    ensures AnyContains(args, pat) <==> AnyHas(args, pat)
  {
    forall j | 0 <= j < |args|
      ensures Contains(args[j], pat) <==> Has(args[j], pat)
    {
      ContainsIsHas(args[j], pat);
    }
  }

  lemma ShownTypeIsRendered(args: seq<string>, raw: string)
    requires Shows(raw, args)
    ensures Classify(raw) == Classify(Render(args))
  {
    if SameLayout(raw, Render(args)) {
      LayoutDoesNotMatter(raw, Render(args));
    } else {
      LastSeparatorDoesNotMatter(raw, '\0');
      LayoutDoesNotMatter(raw + ['\0'], Render(args));
    }
  }

  /** Whatever the executable and the other arguments, and in whatever layout: if --type=value is the first argument
      that contains --type=, then value is the type, except that a utility process is a network service if some
      argument contains the name of that service. */
  lemma TypeIsRecovered(args: seq<string>, k: nat, value: string, raw: string)
    requires k < |args| && args[k] == "--type=" + value && NoSeparator(value)
    requires !AnyHas(args[..k], "--type=")
    requires Shows(raw, args)
    ensures ProcessType(Some(raw)) ==
            if value == "utility" && AnyHas(args, "network.mojom.NetworkService") then "network-service" else value
  {
    PatternsHaveNoSeparator();
    AnyContainsIsAnyHas(args[..k], TYPE_FLAG);
    AnyContainsIsAnyHas(args, NETWORK_SERVICE);
    RenderedFlagIsFound(args, k, value);
    RenderContains(args, NETWORK_SERVICE);
    ShownTypeIsRendered(args, raw);
  }

  // ---- tini, wherever it is installed

  lemma {:induction false} NameAfterSlash(dir: string, name: string)
    requires forall c :: c in name ==> c != '/'
    ensures AfterLastSlash(dir + ['/'] + name) == name
  {
    var path := dir + ['/'] + name;
    if name != [] {
      var n := |name| - 1;
      assert name[n] in name && path[|path| - 1] == name[n];
      assert path[..|path| - 1] == dir + ['/'] + name[..n];
      assert forall c :: c in name[..n] ==> c in name;
      NameAfterSlash(dir, name[..n]);
    }
  }

  // A directory that a file name can follow: none at all, or one that ends with a slash.
  ghost predicate Directory(dir: string) {
    dir == [] || dir[|dir| - 1] == '/'
  }

  lemma {:induction false} NameWithoutSlash(name: string)
    requires forall c :: c in name ==> c != '/'
    ensures AfterLastSlash(name) == name
  {
    if name != [] {
      var n := |name| - 1;
      assert name[n] in name;
      assert forall c :: c in name[..n] ==> c in name;
      NameWithoutSlash(name[..n]);
    }
  }

  lemma BaseOfPath(dir: string, name: string)
    requires Directory(dir) && name != [] && forall c :: c in name ==> c != '/'
    ensures Base(dir + name) == name
  {
    assert name[|name| - 1] in name && (dir + name)[|dir + name| - 1] == name[|name| - 1];
    if dir == [] {
      assert dir + name == name;
      NameWithoutSlash(name);
    } else {
      var n := |dir| - 1;
      assert dir + name == dir[..n] + ['/'] + name;
      NameAfterSlash(dir[..n], name);
    }
  }

  /** tini is recognised by any path and by its bare name, and before its own argument crocochrome is looked at: the
      only things that come first are a type flag and the name of the crashpad handler. */
  lemma TiniIsRecognised(dir: string, rest: string)
    requires Directory(dir) && NoSeparator(dir)
    ensures var raw := dir + "tini" + ['\0'] + rest;
            !Has(raw, "--type=") && !Has(raw, "chrome_crashpad") ==> ProcessType(Some(raw)) == "tini"
  {
    assert "tini" == ['t', 'i', 'n', 'i'];
    BaseOfPath(dir, "tini");
    WordIsValue(dir + "tini", rest);
    var raw := dir + "tini" + ['\0'] + rest;
    ContainsIsHas(raw, TYPE_FLAG);
    ContainsIsHas(raw, CRASHPAD);
  }

  // ---- Every cmdline

  // The name of a path: what stands after its directory and before any slashes at its end.
  ghost predicate NameIn(path: string, dir: string, name: string, slashes: string) {
    path == dir + name + slashes && Directory(dir) && forall c :: c in slashes ==> c == '/'
  }

  ghost predicate Named(path: string, name: string) {
    exists dir, slashes :: NameIn(path, dir, name, slashes)
  }

  lemma {:induction false} StripsSlashes(s: string, slashes: string)
    requires (forall c :: c in slashes ==> c == '/') && (s == [] || s[|s| - 1] != '/')
    ensures StripSlashes(s + slashes) == s
  {
    if slashes == [] {
      assert s + slashes == s;
    } else {
      var n := |slashes| - 1;
      assert slashes[n] in slashes && (s + slashes)[..|s| + n] == s + slashes[..n];
      assert forall c :: c in slashes[..n] ==> c in slashes;
      StripsSlashes(s, slashes[..n]);
    }
  }

  lemma {:induction false} SlashesAreStripped(path: string) returns (slashes: string)
    ensures path == StripSlashes(path) + slashes && forall c :: c in slashes ==> c == '/'
  {
    slashes := [];
    if path != [] && path[|path| - 1] == '/' {
      var rest := SlashesAreStripped(path[..|path| - 1]);
      slashes := rest + ['/'];
      assert path == path[..|path| - 1] + ['/'];
    }
  }

  lemma {:induction false} DirectoryIsCutOff(path: string) returns (dir: string)
    ensures path == dir + AfterLastSlash(path) && Directory(dir)
    ensures forall c :: c in AfterLastSlash(path) ==> c != '/'
  {
    if path == [] || path[|path| - 1] == '/' {
      dir := path;
    } else {
      dir := DirectoryIsCutOff(path[..|path| - 1]);
      assert path == path[..|path| - 1] + [path[|path| - 1]];
    }
  }

  // filepath.Base gives the name.
  lemma BaseIsName(path: string, name: string)
    requires name != [] && name != "." && forall c :: c in name ==> c != '/'
    ensures Base(path) == name <==> Named(path, name)
  {
    if Named(path, name) {
      var dir, slashes :| NameIn(path, dir, name, slashes);
      var s := dir + name;
      assert s[|s| - 1] == name[|name| - 1] && name[|name| - 1] in name;
      StripsSlashes(s, slashes);
      StripsSlashes(s, []);
      assert s + [] == s && path != [];
      BaseOfPath(dir, name);
    }
    if Base(path) == name {
      var slashes := SlashesAreStripped(path);
      var dir := DirectoryIsCutOff(StripSlashes(path));
      assert '/' in "/";
      assert NameIn(path, dir, name, slashes);
    }
  }

  // A word ends with the cmdline, or at a space or a NUL.
  ghost predicate Ends(rest: string) {
    rest == [] || rest[0] == ' ' || rest[0] == '\0'
  }

  ghost predicate IsWord(word: string) {
    forall c :: c in word ==> c != ' ' && c != '\0'
  }

  lemma {:induction false} FirstWordIs(word: string, rest: string)
    requires IsWord(word) && Ends(rest)
    ensures FirstWord(word + rest) == word
  {
    if word == [] {
      assert word + rest == rest;
    } else {
      assert word[0] in word;
      assert (word + rest)[1..] == word[1..] + rest;
      assert forall c :: c in word[1..] ==> c in word;
      FirstWordIs(word[1..], rest);
    }
  }

  /** Every cmdline without --type= in it, by its first word and the names in it; and a cmdline that cannot be read. */
  lemma TypeWithoutFlag(word: string, rest: string)
    requires IsWord(word) && Ends(rest) && !Has(word + rest, "--type=")
    ensures ProcessType(Some(word + rest)) ==
            if Has(word + rest, "chrome_crashpad") then "crashpad"
            else if Named(word, "tini") then "tini"
            else if Has(word + rest, "crocochrome") then "crocochrome"
            else "browser"
    ensures ProcessType(None) == "unknown"
  {
    var raw := word + rest;
    ContainsIsHas(raw, "--type=");
    ContainsIsHas(raw, "chrome_crashpad");
    ContainsIsHas(raw, "crocochrome");
    FirstWordIs(word, rest);
    assert "tini" == ['t', 'i', 'n', 'i'];
    BaseIsName(word, "tini");
  }

  /** Every cmdline with --type= in it: the word after its first occurrence, with the exception for the network
      service. */
  lemma TypeWithFlag(before: string, value: string, rest: string)
    requires IsWord(value) && Ends(rest)
    requires var raw := before + "--type=" + (value + rest);
             forall x, y :: Around(raw, x, "--type=", y) ==> |before| <= |x|
    ensures var raw := before + "--type=" + (value + rest);
            ProcessType(Some(raw)) ==
            if value == "utility" && Has(raw, "network.mojom.NetworkService") then "network-service" else value
  {
    var raw := before + "--type=" + (value + rest);
    assert Around(raw, before, "--type=", value + rest);
    IndexIsShortest(raw, before, "--type=", value + rest);
    assert raw[|before| + |"--type="|..] == value + rest;
    FirstWordIs(value, rest);
    ContainsIsHas(raw, "network.mojom.NetworkService");
  }

  lemma RenderHas(args: seq<string>, pat: string)
    requires NoSeparator(pat) && pat != []
    ensures Has(Render(args), pat) <==> AnyHas(args, pat)
  {
    RenderContains(args, pat);
    AnyContainsIsAnyHas(args, pat);
    ContainsIsHas(Render(args), pat);
  }

  // The first argument, and what the kernel puts after it.
  lemma FirstArgument(args: seq<string>) returns (word: string, rest: string)
    requires args != [] ==> IsWord(args[0])
    ensures Render(args) == word + rest && IsWord(word) && Ends(rest)
    ensures word == if args == [] then [] else args[0]
  {
    if args == [] {
      word, rest := [], [];
    } else {
      word, rest := args[0], ['\0'] + Render(args[1..]);
    }
  }

  lemma EmptyIsNotTini()
    ensures !Named([], "tini")
  {
    assert "tini" == ['t', 'i', 'n', 'i'];
    BaseIsName([], "tini");
  }

  /** The same by the arguments, in whatever layout, for a command line none of whose arguments has --type= in it. */
  lemma TypeByArguments(args: seq<string>, raw: string)
    requires Shows(raw, args) && !AnyHas(args, "--type=") && (args != [] ==> IsWord(args[0]))
    ensures ProcessType(Some(raw)) ==
            if AnyHas(args, "chrome_crashpad") then "crashpad"
            else if args != [] && Named(args[0], "tini") then "tini"
            else if AnyHas(args, "crocochrome") then "crocochrome"
            else "browser"
  {
    ShownTypeIsRendered(args, raw);
    RenderHasNames(args);
    EmptyIsNotTini();
    var word, rest := FirstArgument(args);
    TypeWithoutFlag(word, rest);
  }

  lemma RenderHasNames(args: seq<string>)
    ensures Has(Render(args), "--type=") <==> AnyHas(args, "--type=")
    ensures Has(Render(args), "chrome_crashpad") <==> AnyHas(args, "chrome_crashpad")
    ensures Has(Render(args), "crocochrome") <==> AnyHas(args, "crocochrome")
  {
    PatternsHaveNoSeparator();
    RenderHas(args, TYPE_FLAG);
    RenderHas(args, CRASHPAD);
    RenderHas(args, CROCOCHROME);
  }
}
