/**
 The authority section of the proxy's configuration: what is written for the users, what a reader
 finds in it, and the update of the configuration map.
 */
module PredixyAuthority {
  import opened Wrappers
  import opened PredixyConfig
  import opened PredixyLens

  // ---- The section ----

  function DatabaseName(namespace: string, db: string): string {
    namespace + "_" + db
  }

  const SECTION_BEGIN := "\n\tAuthority {\n"
  const MODE_WRITE := "\n\t\t\tMode write\n"
  const USER_END := "\n\t\t}\n"
  const SECTION_END := "\n\t}\t\n"

  function UserBegin(password: string): string {
    "\n\t\tAuth " + password + " {\n"
  }

  function UserNamespace(name: string): string {
    "\n\t\t\tNamespace " + name + "\n"
  }

  predicate HasNamespace(p: seq<string>) {
    |p| > 2 && p[2] != ""
  }

  function UserSection(p: seq<string>): string
    requires |p| >= 1
  {
    UserBegin(p[0]) + MODE_WRITE
    + (if HasNamespace(p) then UserNamespace(DatabaseName(p[1], p[2])) else "")
    + USER_END
  }

  function UserSections(passwords: seq<seq<string>>): string
    requires forall p :: p in passwords ==> |p| >= 1
  {
    if passwords == [] then ""
    else
      assert passwords[|passwords| - 1] in passwords;
      UserSections(passwords[..|passwords| - 1]) + UserSection(passwords[|passwords| - 1])
  }

  function AuthSections(passwords: seq<seq<string>>): string
    requires forall p :: p in passwords ==> |p| >= 1
  {
    SECTION_BEGIN + UserSections(passwords) + SECTION_END
  }

  lemma Regroup(s: string, a: string, b: string, c: string, d: string)
    ensures s + a + b + c + d == s + (a + b + c + d)
  {
  }

  /** The body of the loop. */
  method AddUserSection(section: string, p: seq<string>) returns (r: string)
    requires |p| >= 1
    ensures r == section + UserSection(p)
  {
    hide UserBegin, UserNamespace;
    r := section + UserBegin(p[0]);
    r := r + MODE_WRITE;
    ghost var named := "";
    assert r == r + named;
    if |p| > 2 && p[2] != "" {
      named := UserNamespace(DatabaseName(p[1], p[2]));
      r := r + UserNamespace(DatabaseName(p[1], p[2]));
    }
    r := r + USER_END;
    Regroup(section, UserBegin(p[0]), MODE_WRITE, named, USER_END);
  }

  method GetUserAuthSections(passwords: seq<seq<string>>) returns (section: string)
    requires forall p :: p in passwords ==> |p| >= 1
    ensures section == AuthSections(passwords)
  {
    hide UserSection;
    section := SECTION_BEGIN;
    assert section == SECTION_BEGIN + UserSections([]);
    for k := 0 to |passwords|
      invariant section == SECTION_BEGIN + UserSections(passwords[..k])
    {
      assert passwords[k] in passwords && passwords[..k + 1][..k] == passwords[..k];
      section := AddUserSection(section, passwords[k]);
      assert section == SECTION_BEGIN + (UserSections(passwords[..k]) + UserSection(passwords[k]));
    }
    assert passwords[..|passwords|] == passwords;
    section := section + SECTION_END;
  }

  /** The parts of an entry that are written. */
  predicate CleanEntry(p: seq<string>) {
    |p| >= 1 && NoHash(p[0]) && (HasNamespace(p) ==> NoHash(p[1]) && NoHash(p[2]))
  }

  lemma NoHashConcat(a: string, b: string)
    ensures NoHash(a + b) <==> NoHash(a) && NoHash(b)
  {
    var c := a + b;
    if NoHash(c) {
      assert forall k :: 0 <= k < |a| ==> a[k] == c[k];
      assert forall k :: 0 <= k < |b| ==> b[k] == c[|a| + k];
    }
  }

  lemma UserSectionNoHash(p: seq<string>)
    requires |p| >= 1
    ensures NoHash(UserSection(p)) <==> CleanEntry(p)
  {
    hide NoHash;
    FixedTexts();
    var a := UserBegin(p[0]);
    var c := if HasNamespace(p) then UserNamespace(DatabaseName(p[1], p[2])) else "";
    NoHashConcat("\n\t\tAuth ", p[0]);
    NoHashConcat("\n\t\tAuth " + p[0], " {\n");
    NoHashConcat(a, MODE_WRITE);
    NoHashConcat(a + MODE_WRITE, c);
    NoHashConcat(a + MODE_WRITE + c, USER_END);
    if HasNamespace(p) {
      var name := DatabaseName(p[1], p[2]);
      NoHashConcat(p[1], "_");
      NoHashConcat(p[1] + "_", p[2]);
      NoHashConcat("\n\t\t\tNamespace ", name);
      NoHashConcat("\n\t\t\tNamespace " + name, "\n");
    }
  }

  lemma FixedTexts()
    ensures NoHash("\n\t\tAuth ") && NoHash(" {\n") && NoHash(MODE_WRITE) && NoHash("")
    ensures NoHash("\n\t\t\tNamespace ") && NoHash("\n") && NoHash("_") && NoHash(USER_END)
    ensures NoHash(SECTION_BEGIN) && NoHash(SECTION_END)
  {
  }

  lemma {:induction false} UserSectionsNoHash(passwords: seq<seq<string>>)
    requires forall p :: p in passwords ==> |p| >= 1
    ensures NoHash(UserSections(passwords)) <==> forall p :: p in passwords ==> CleanEntry(p)
  {
    hide NoHash, UserSection, CleanEntry;
    FixedTexts();
    if passwords != [] {
      var front, last := passwords[..|passwords| - 1], passwords[|passwords| - 1];
      assert last in passwords;
      UserSectionsNoHash(front);
      UserSectionNoHash(last);
      NoHashConcat(UserSections(front), UserSection(last));
      assert forall p :: p in passwords <==> p in front || p == last;
    }
  }

  /** The generated section is free of '#' exactly when every written password and name is. */
  lemma AuthSectionsNoHash(passwords: seq<seq<string>>)
    requires forall p :: p in passwords ==> |p| >= 1
    ensures NoHash(AuthSections(passwords)) <==> forall p :: p in passwords ==> CleanEntry(p)
  {
    hide NoHash, UserSections, CleanEntry;
    UserSectionsNoHash(passwords);
    FixedTexts();
    NoHashConcat(SECTION_BEGIN, UserSections(passwords));
    NoHashConcat(SECTION_BEGIN + UserSections(passwords), SECTION_END);
  }

  // ---- Reading a section ----

  /** What a reader of the configuration finds for one user. */
  datatype Block = Block(auth: string, mode: string, namespace: Option<string>)

  /** The lines of a text. */
  function Lines(s: string): (lines: seq<string>)
    ensures |lines| >= 1
  {
    if s == "" then [""]
    else if s[0] == '\n' then [""] + Lines(s[1..])
    else
      var rest := Lines(s[1..]);
      [[s[0]] + rest[0]] + rest[1..]
  }

  predicate OpensBlock(line: string) {
    "\t\tAuth " <= line && |line| >= 9 && line[|line| - 2..] == " {"
  }

  function PasswordIn(line: string): string
    requires OpensBlock(line)
  {
    line[7..|line| - 2]
  }

  /** The blocks of a list of lines, while `open` is being read: an Auth line opens a block, Mode and
      Namespace lines add to it, and a closing line ends it; any other line does not matter. */
  function Blocks(lines: seq<string>, open: Option<Block>): seq<Block> {
    if lines == [] then []
    else
      var line := lines[0];
      if OpensBlock(line) then Blocks(lines[1..], Some(Block(PasswordIn(line), "", None)))
      else if open.None? then Blocks(lines[1..], None)
      else if line == "\t\t}" then [open.value] + Blocks(lines[1..], None)
      else if "\t\t\tMode " <= line then Blocks(lines[1..], Some(open.value.(mode := line[8..])))
      else if "\t\t\tNamespace " <= line then Blocks(lines[1..], Some(open.value.(namespace := Some(line[13..]))))
      else Blocks(lines[1..], open)
  }

  function ReadSection(text: string): seq<Block> {
    Blocks(Lines(text), None)
  }

  predicate NoBreak(s: string) {
    forall k :: 0 <= k < |s| ==> s[k] != '\n'
  }

  lemma {:induction false} FirstLine(line: string, rest: string)
    requires NoBreak(line)
    ensures Lines(line + "\n" + rest) == [line] + Lines(rest)
  {
    var s := line + "\n" + rest;
    if line == "" {
      assert s[1..] == rest;
    } else {
      assert s[1..] == line[1..] + "\n" + rest;
      FirstLine(line[1..], rest);
      assert [line[0]] + line[1..] == line;
    }
  }

  /** One more line for the reader. */
  lemma NextLine(line: string, rest: string, open: Option<Block>)
    requires NoBreak(line)
    ensures Blocks(Lines(line + "\n" + rest), open) == Blocks([line] + Lines(rest), open)
    ensures ([line] + Lines(rest))[1..] == Lines(rest)
  {
    FirstLine(line, rest);
  }

  /** The lines that are the same for every user have no line break, and open no block. */
  lemma FixedLines()
    ensures NoBreak("\t\t\tMode write") && NoBreak("\t\t}") && NoBreak("\tAuthority {") && NoBreak("\t}\t")
    ensures NoBreak("\t\tAuth ") && NoBreak("\t\t\tNamespace ")
    ensures !OpensBlock("\t\t\tMode write") && !OpensBlock("\t\t}") && !OpensBlock("\tAuthority {")
  {
    var auth := "\t\tAuth ";
    assert "\t\t\tMode write"[2] != auth[2] && "\tAuthority {"[1] != auth[1];
  }

  lemma AuthLine(password: string, rest: string, open: Option<Block>)
    requires NoBreak(password)
    ensures Blocks(Lines(UserBegin(password) + rest), open) ==
            Blocks(Lines(rest), Some(Block(password, "", None)))
  {
    FixedLines();
    var line := "\t\tAuth " + password + " {";
    assert line[7..|line| - 2] == password && line[|line| - 2..] == " {" && OpensBlock(line);
    assert UserBegin(password) + rest == "" + "\n" + (line + "\n" + rest);
    NextLine("", line + "\n" + rest, open);
    NextLine(line, rest, open);
  }

  lemma ModeLine(rest: string, block: Block)
    ensures Blocks(Lines(MODE_WRITE + rest), Some(block)) == Blocks(Lines(rest), Some(block.(mode := "write")))
  {
    var line := "\t\t\tMode write";
    FixedLines();
    assert line[8..] == "write";
    assert MODE_WRITE + rest == "" + "\n" + (line + "\n" + rest);
    NextLine("", line + "\n" + rest, Some(block));
    NextLine(line, rest, Some(block));
  }

  lemma NamespaceLine(name: string, rest: string, block: Block)
    requires NoBreak(name)
    ensures Blocks(Lines(UserNamespace(name) + rest), Some(block)) ==
            Blocks(Lines(rest), Some(block.(namespace := Some(name))))
  {
    FixedLines();
    var line := "\t\t\tNamespace " + name;
    assert line[13..] == name && line[2] == '\t' && line[3] == 'N';
    assert UserNamespace(name) + rest == "" + "\n" + (line + "\n" + rest);
    NextLine("", line + "\n" + rest, Some(block));
    NextLine(line, rest, Some(block));
  }

  lemma ClosingLine(rest: string, block: Block)
    ensures Blocks(Lines(USER_END + rest), Some(block)) == [block] + Blocks(Lines(rest), None)
  {
    FixedLines();
    var line := "\t\t}";
    assert USER_END + rest == "" + "\n" + (line + "\n" + rest);
    NextLine("", line + "\n" + rest, Some(block));
    NextLine(line, rest, Some(block));
  }

  /** The written parts of an entry have no line break. */
  predicate OneLine(p: seq<string>) {
    |p| >= 1 && NoBreak(p[0]) && (HasNamespace(p) ==> NoBreak(p[1]) && NoBreak(p[2]))
  }

  /** What is read back for an entry. */
  function BlockOf(p: seq<string>): Block
    requires |p| >= 1
  {
    Block(p[0], "write", if |p| > 2 && p[2] != "" then Some(p[1] + "_" + p[2]) else None)
  }

  lemma UserReadsBack(p: seq<string>, rest: string)
    requires OneLine(p)
    ensures Blocks(Lines(UserSection(p) + rest), None) == [BlockOf(p)] + Blocks(Lines(rest), None)
  {
    hide Blocks, Lines, UserBegin, UserNamespace, NoBreak;
    var a := UserBegin(p[0]);
    var c := if HasNamespace(p) then UserNamespace(DatabaseName(p[1], p[2])) else "";
    var block := Block(p[0], "write", None);
    assert UserSection(p) + rest == a + (MODE_WRITE + (c + (USER_END + rest)));
    AuthLine(p[0], MODE_WRITE + (c + (USER_END + rest)), None);
    ModeLine(c + (USER_END + rest), Block(p[0], "", None));
    if HasNamespace(p) {
      NameOnOneLine(p);
      NamespaceLine(DatabaseName(p[1], p[2]), USER_END + rest, block);
    } else {
      assert c + (USER_END + rest) == USER_END + rest;
    }
    ClosingLine(rest, BlockOf(p));
  }

  lemma NameOnOneLine(p: seq<string>)
    requires OneLine(p) && HasNamespace(p)
    ensures NoBreak(DatabaseName(p[1], p[2]))
  {
  }

  ghost predicate ReadsAs(blocks: seq<Block>, passwords: seq<seq<string>>) {
    && |blocks| == |passwords|
    && forall k :: 0 <= k < |passwords| ==> |passwords[k]| >= 1 && blocks[k] == BlockOf(passwords[k])
  }

  lemma NothingReadsAsNothing()
    ensures ReadsAs([], [])
  {
  }

  lemma ReadsOneMore(blocks: seq<Block>, front: seq<seq<string>>, last: seq<string>)
    requires ReadsAs(blocks, front) && |last| >= 1
    ensures ReadsAs(blocks + [BlockOf(last)], front + [last])
  {
  }

  lemma {:induction false} UsersReadBack(passwords: seq<seq<string>>, rest: string) returns (blocks: seq<Block>)
    requires forall p :: p in passwords ==> |p| >= 1 && OneLine(p)
    ensures ReadsAs(blocks, passwords)
    ensures Blocks(Lines(UserSections(passwords) + rest), None) == blocks + Blocks(Lines(rest), None)
  {
    hide Blocks, Lines, UserSection, OneLine, BlockOf, ReadsAs;
    if passwords == [] {
      blocks := [];
      NothingReadsAsNothing();
      assert UserSections(passwords) + rest == rest;
    } else {
      var front, last := passwords[..|passwords| - 1], passwords[|passwords| - 1];
      assert last in passwords;
      assert UserSections(passwords) + rest == UserSections(front) + (UserSection(last) + rest);
      blocks := UsersReadBack(front, UserSection(last) + rest);
      UserReadsBack(last, rest);
      ReadsOneMore(blocks, front, last);
      assert passwords == front + [last];
      blocks := blocks + [BlockOf(last)];
    }
  }

  lemma BeforeUsers(rest: string)
    ensures Blocks(Lines("\n" + (SECTION_BEGIN + rest)), None) == Blocks(Lines(rest), None)
  {
    FixedLines();
    var line := "\tAuthority {";
    assert "\n" + (SECTION_BEGIN + rest) == "" + "\n" + ("" + "\n" + (line + "\n" + rest));
    NextLine("", "" + "\n" + (line + "\n" + rest), None);
    NextLine("", line + "\n" + rest, None);
    NextLine(line, rest, None);
  }

  lemma AfterUsers()
    ensures Blocks(Lines(SECTION_END + "\n"), None) == []
  {
    FixedLines();
    var line := "\t}\t";
    assert SECTION_END + "\n" == "" + "\n" + (line + "\n" + ("" + "\n" + ""));
    NextLine("", line + "\n" + ("" + "\n" + ""), None);
    NextLine(line, "" + "\n" + "", None);
    NextLine("", "", None);
    assert Lines("") == [""] && [""][1..] == [];
  }

  lemma {:induction false} LinesHaveNoBreak(s: string)
    ensures forall line :: line in Lines(s) ==> NoBreak(line)
  {
    if s != "" {
      LinesHaveNoBreak(s[1..]);
      var rest := Lines(s[1..]);
      if s[0] != '\n' {
        assert rest[0] in rest;
        assert NoBreak([s[0]] + rest[0]);
      }
      forall line | line in Lines(s) ensures NoBreak(line) {
        assert line in rest || line == "" || line == [s[0]] + rest[0];
      }
    }
  }

  /** The block's parts have no line break. */
  predicate PartsOnOneLine(b: Block) {
    NoBreak(b.auth) && (b.namespace.Some? ==> NoBreak(b.namespace.value))
  }

  lemma {:induction false} BlocksHaveNoBreak(lines: seq<string>, open: Option<Block>)
    requires forall line :: line in lines ==> NoBreak(line)
    requires open.Some? ==> PartsOnOneLine(open.value)
    ensures forall b :: b in Blocks(lines, open) ==> PartsOnOneLine(b)
  {
    if lines != [] {
      var line, rest := lines[0], lines[1..];
      assert line in lines;
      assert forall n :: 0 <= n <= |line| ==> NoBreak(line[n..]);
      if OpensBlock(line) {
        assert forall k :: 0 <= k < |PasswordIn(line)| ==> PasswordIn(line)[k] == line[k + 7];
        BlocksHaveNoBreak(rest, Some(Block(PasswordIn(line), "", None)));
      } else if open.None? {
        BlocksHaveNoBreak(rest, None);
      } else if line == "\t\t}" {
        BlocksHaveNoBreak(rest, None);
      } else if "\t\t\tMode " <= line {
        BlocksHaveNoBreak(rest, Some(open.value.(mode := line[8..])));
      } else if "\t\t\tNamespace " <= line {
        BlocksHaveNoBreak(rest, Some(open.value.(namespace := Some(line[13..]))));
      } else {
        BlocksHaveNoBreak(rest, open);
      }
    }
  }

  /** Round trip: a reader of the written section finds the entries again, in order, exactly if no
      written part has a line break. */
  lemma SectionReadsBack(passwords: seq<seq<string>>)
    requires forall p :: p in passwords ==> |p| >= 1
    ensures ReadsAs(ReadSection(Framed(AuthSections(passwords))), passwords)
            <==> forall p :: p in passwords ==> OneLine(p)
  {
    hide Blocks, Lines, AuthSections, OneLine, NoBreak;
    var text := Framed(AuthSections(passwords));
    if forall p :: p in passwords ==> OneLine(p) {
      OneLinersReadBack(passwords);
    }
    LinesHaveNoBreak(text);
    BlocksHaveNoBreak(Lines(text), None);
    forall p | p in passwords && ReadsAs(ReadSection(text), passwords) ensures OneLine(p) {
      var k :| 0 <= k < |passwords| && passwords[k] == p;
      assert ReadSection(text)[k] in ReadSection(text);
      EntryOnOneLine(p);
    }
  }

  lemma EntryOnOneLine(p: seq<string>)
    requires |p| >= 1 && PartsOnOneLine(BlockOf(p))
    ensures OneLine(p)
  {
    if HasNamespace(p) {
      var name := p[1] + "_" + p[2];
      assert forall k :: 0 <= k < |p[1]| ==> p[1][k] == name[k];
      assert forall k :: 0 <= k < |p[2]| ==> p[2][k] == name[|p[1]| + 1 + k];
    }
  }

  lemma OneLinersReadBack(passwords: seq<seq<string>>)
    requires forall p :: p in passwords ==> |p| >= 1 && OneLine(p)
    ensures ReadsAs(ReadSection(Framed(AuthSections(passwords))), passwords)
  {
    hide Blocks, Lines, UserSections, OneLine;
    var rest := SECTION_END + "\n";
    assert Framed(AuthSections(passwords)) == "\n" + (SECTION_BEGIN + (UserSections(passwords) + rest));
    BeforeUsers(UserSections(passwords) + rest);
    var blocks := UsersReadBack(passwords, rest);
    AfterUsers();
    assert blocks + [] == blocks;
  }

  /** A password with a line break is not found again. */
  lemma LineBreakBreaksReading()
    ensures !ReadsAs(ReadSection(Framed(AuthSections([["a\nb"]]))), [["a\nb"]])
  {
    assert "a\nb"[1] == '\n' && ["a\nb"] in [["a\nb"]];
    SectionReadsBack([["a\nb"]]);
  }

  // ---- The update ----

  const REDIS := "redis"
  const CONF := "predixy.conf"

  datatype Request = Request(middleware: string, appNamespace: string, namespace: string,
                             password: Result<string, string>)

  function EntryOf(r: Request): seq<string>
    requires r.password.Success?
  {
    [r.password.value, r.appNamespace] + (if |r.namespace| > 0 then [r.namespace] else [])
  }

  /** The entries of all Redis requests, or the error of the first whose password cannot be read. */
  function Entries(requests: seq<Request>): (r: Result<seq<seq<string>>, string>)
    ensures r.Success? ==> forall p :: p in r.value ==> |p| >= 1
  {
    if requests == [] then Success([])
    else
      var before := Entries(requests[..|requests| - 1]);
      var last := requests[|requests| - 1];
      if before.Failure? || last.middleware != REDIS then before
      else if last.password.Failure? then Failure(last.password.error)
      else Success(before.value + [EntryOf(last)])
  }

  lemma {:induction false} EntriesStop(requests: seq<Request>, k: nat)
    requires k <= |requests| && Entries(requests[..k]).Failure?
    ensures Entries(requests) == Entries(requests[..k])
  {
    var n := |requests|;
    if k == n {
      assert requests[..k] == requests;
    } else {
      assert requests[..n - 1][..k] == requests[..k];
      EntriesStop(requests[..n - 1], k);
    }
  }

  /** The Redis requests, in order. */
  function Redis(requests: seq<Request>): seq<Request> {
    if requests == [] then []
    else
      var last := requests[|requests| - 1];
      Redis(requests[..|requests| - 1]) + if last.middleware == "redis" then [last] else []
  }

  /** One entry for each of these requests: its password and, if it names a namespace, its application's
      namespace and that one. */
  ghost predicate Collected(entries: seq<seq<string>>, requests: seq<Request>) {
    && |entries| == |requests|
    && forall k :: 0 <= k < |requests| ==>
         var e, r := entries[k], requests[k];
         && e != [] && r.password == Success(e[0])
         && (|e| > 2 && e[2] != "" <==> r.namespace != "")
         && (|e| > 2 && e[2] != "" ==> e[1] == r.appNamespace && e[2] == r.namespace)
  }

  lemma {:induction false} EntriesMean(requests: seq<Request>)
    ensures Entries(requests).Success? <==>
            forall q :: q in requests && q.middleware == "redis" ==> q.password.Success?
    ensures Entries(requests).Success? ==> Collected(Entries(requests).value, Redis(requests))
  {
    if requests != [] {
      var front, last := requests[..|requests| - 1], requests[|requests| - 1];
      EntriesMean(front);
      assert requests == front + [last];
    }
  }

  method CollectPasswords(requests: seq<Request>) returns (r: Result<seq<seq<string>>, string>)
    ensures r == Entries(requests)
    ensures r.Success? <==> forall q :: q in requests && q.middleware == "redis" ==> q.password.Success?
    ensures r.Success? ==> Collected(r.value, Redis(requests))
  {
    EntriesMean(requests);
    var passwords: seq<seq<string>> := [];
    for k := 0 to |requests|
      invariant Entries(requests[..k]) == Success(passwords)
    {
      assert requests[..k + 1][..k] == requests[..k];
      var mr := requests[k];
      if mr.middleware == REDIS {
        match mr.password
        case Failure(e) =>
          EntriesStop(requests, k + 1);
          return Failure(e);
        case Success(password) =>
          var entry := [password, mr.appNamespace];
          if |mr.namespace| > 0 {
            entry := entry + [mr.namespace];
          }
          assert entry == EntryOf(mr);
          passwords := passwords + [entry];
      }
    }
    assert requests[..|requests|] == requests;
    r := Success(passwords);
  }

  /** The section an update writes: the Redis users in order, then the administrator. */
  function SectionFor(requests: seq<Request>, admin: string): string
    requires Entries(requests).Success?
  {
    AuthSections(Entries(requests).value + [[admin]])
  }

  /** The written parts of a request have no line break. */
  predicate RequestOnOneLine(r: Request) {
    r.password.Success? ==>
      NoBreak(r.password.value) && (r.namespace != "" ==> NoBreak(r.appNamespace) && NoBreak(r.namespace))
  }

  predicate OnOneLine(requests: seq<Request>, admin: string) {
    NoBreak(admin) && forall r :: r in Redis(requests) ==> RequestOnOneLine(r)
  }

  /** The blocks are those of the Redis requests in order, each with the request's password and write
      access and, exactly if the request gives a namespace, with the namespace made of the
      application's and its own; and then the administrator's, without one. */
  ghost predicate Describes(blocks: seq<Block>, requests: seq<Request>, admin: string) {
    var redis := Redis(requests);
    && |blocks| == |redis| + 1
    && blocks[|redis|] == Block(admin, "write", None)
    && forall k :: 0 <= k < |redis| ==>
         && redis[k].password == Success(blocks[k].auth) && blocks[k].mode == "write"
         && blocks[k].namespace == if redis[k].namespace == "" then None
                                   else Some(redis[k].appNamespace + "_" + redis[k].namespace)
  }

  lemma SameConditions(entries: seq<seq<string>>, requests: seq<Request>, admin: string)
    requires Collected(entries, Redis(requests))
    ensures (forall p :: p in entries + [[admin]] ==> OneLine(p)) <==> OnOneLine(requests, admin)
  {
    hide Redis, NoBreak;
    var redis, all := Redis(requests), entries + [[admin]];
    assert all[|redis|] == [admin] && OneLine([admin]) == NoBreak(admin);
    forall k | 0 <= k < |redis| ensures OneLine(entries[k]) <==> RequestOnOneLine(redis[k]) {
    }
    if forall p :: p in all ==> OneLine(p) {
      assert all[|redis|] in all;
      forall r | r in redis ensures RequestOnOneLine(r) {
        var k :| 0 <= k < |redis| && redis[k] == r;
        assert all[k] == entries[k] && all[k] in all;
      }
    }
    if OnOneLine(requests, admin) {
      forall p | p in all ensures OneLine(p) {
        if p in entries {
          var k :| 0 <= k < |redis| && entries[k] == p;
          assert redis[k] in redis;
        }
      }
    }
  }

  /** Round trip of an update: reading what it writes into a section gives the requests back, exactly
      if no written part has a line break. */
  lemma UpdateReadsBack(requests: seq<Request>, admin: string)
    requires Entries(requests).Success?
    ensures Describes(ReadSection(Framed(SectionFor(requests, admin))), requests, admin) <==>
            OnOneLine(requests, admin)
  {
    hide Entries, ReadSection, AuthSections, NoBreak, Redis;
    var entries := Entries(requests).value;
    var all := entries + [[admin]];
    EntriesMean(requests);
    SameConditions(entries, requests, admin);
    SectionReadsBack(all);
    SameReading(ReadSection(Framed(SectionFor(requests, admin))), entries, requests, admin);
  }

  lemma SameReading(blocks: seq<Block>, entries: seq<seq<string>>, requests: seq<Request>, admin: string)
    requires Collected(entries, Redis(requests))
    ensures ReadsAs(blocks, entries + [[admin]]) <==> Describes(blocks, requests, admin)
  {
    hide Redis;
    var redis, all := Redis(requests), entries + [[admin]];
    assert all[|redis|] == [admin] && forall k :: 0 <= k < |redis| ==> all[k] == entries[k];
  }

  class ConfigMap {
    var data: map<string, string>

    function Conf(): string
      reads this
    {
      if CONF in data then data[CONF] else ""
    }

    /** The part of `UpdateProxyConfig` that writes the map. */
    method UpdateProxyConfig(requests: seq<Request>, admin: Result<string, string>) returns (ok: bool)
      modifies this
      ensures ok <==> admin.Success? && forall q :: q in requests && q.middleware == "redis" ==> q.password.Success?
      ensures ok ==> Entries(requests).Success?
      ensures data == if ok then old(data)[CONF := Rewrite(old(Conf()), SectionFor(requests, admin.value))]
                      else old(data)
      ensures ok ==>
                exists content ::
                  && data == old(data)["predixy.conf" := Flat(SetAll(Tokens(old(Conf())), content))]
                  && (Describes(ReadSection(content), requests, admin.value) <==> OnOneLine(requests, admin.value))
    {
      hide Rewrite, Tokens, Flat, ReadSection, Describes, OnOneLine;
      var passwords := CollectPasswords(requests);
      if passwords.Failure? || admin.Failure? {
        return false;
      }
      var section := GetUserAuthSections(passwords.value + [[admin.value]]);
      ghost var before := Conf();
      data := data[CONF := Rewrite(Conf(), section)];
      ok := true;
      RewriteSetsSections(before, section);
      UpdateReadsBack(requests, admin.value);
    }
  }

  /** An update with clean passwords leaves nothing that a later update would keep or miss: the later
      one gives what it alone would have given, and repeating an update changes nothing. */
  lemma UpdatesDoNotAccumulate(t: string, rs: seq<Request>, a: string, qs: seq<Request>, b: string)
    requires Entries(rs).Success? && Entries(qs).Success?
    requires forall p :: p in Entries(rs).value + [[a]] ==> CleanEntry(p)
    ensures Rewrite(Rewrite(t, SectionFor(rs, a)), SectionFor(qs, b)) == Rewrite(t, SectionFor(qs, b))
    ensures Rewrite(Rewrite(t, SectionFor(rs, a)), SectionFor(rs, a)) == Rewrite(t, SectionFor(rs, a))
  {
    hide Rewrite, NoHash, AuthSections;
    AuthSectionsNoHash(Entries(rs).value + [[a]]);
    PutPut(t, SectionFor(rs, a), SectionFor(qs, b));
    PutPut(t, SectionFor(rs, a), SectionFor(rs, a));
  }

  /** And what is read next: without '#' in the written parts, every section of the written text reads
      as the requests. */
  lemma EverySectionReadsBack(t: string, requests: seq<Request>, admin: string)
    requires Entries(requests).Success? && OnOneLine(requests, admin)
    requires forall p :: p in Entries(requests).value + [[admin]] ==> CleanEntry(p)
    ensures forall token :: token in Tokens(Rewrite(t, SectionFor(requests, admin))) && token.Section? ==>
              Describes(ReadSection(token.content), requests, admin)
  {
    hide Rewrite, Tokens, NoHash, AuthSections, ReadSection, Describes, OnOneLine, Framed;
    AuthSectionsNoHash(Entries(requests).value + [[admin]]);
    PutGet(t, SectionFor(requests, admin));
    UpdateReadsBack(requests, admin);
  }
}
