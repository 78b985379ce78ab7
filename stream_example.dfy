/** The worked example of the streaming store: five syslog lines inserted
    into an empty `LCSMap` (tests/test_parsing.py). The three `User bal ...`
    lines share one template with two wildcard slots, and `param` on the
    last line reads the address and the level back out of those slots.

    Each step is its own lemma so that every proof unfolds only a few calls. */
module StreamExample {
  import opened Wrappers
  import opened Tokens
  import opened SpellStream

  // The lines of the example. The longer ones are written as two halves
  // joined by a space, which keeps each string equality the verifier has to
  // check short.
  const Line1: string := "1.4.1: restart."
  const Line2: string := "Cannot build symbol table" + " " + "- disabling symbol lookups"
  const Line3: string := "User bal (192.168.139.1)" + " " + "set 'SYSLOG_NOTICE' to ''"
  const Line4: string := "User bal (192.168.139.2)" + " " + "set 'SYSLOG_WARN' to ''"
  const Line5: string := "User bal (192.168.139.3)" + " " + "set 'SYSLOG_ERR' to ''"

  const Toks1: seq<string> := ["1.4.1:", "restart."]
  const Toks2: seq<string> := ["Cannot", "build", "symbol", "table", "-", "disabling", "symbol", "lookups"]
  const Toks3: seq<string> := UserLine(Addr3, Level3)
  const Toks4: seq<string> := UserLine(Addr4, Level4)
  const Toks5: seq<string> := UserLine(Addr5, Level5)

  const Addr3: string := "(192.168.139.1)"
  const Addr4: string := "(192.168.139.2)"
  const Addr5: string := "(192.168.139.3)"
  const Level3: string := "'SYSLOG_NOTICE'"
  const Level4: string := "'SYSLOG_WARN'"
  const Level5: string := "'SYSLOG_ERR'"

  /** The tokens of a `User bal` line with address `a` and level `l`. */
  function UserLine(a: string, l: string): seq<string> {
    ["User", "bal", a, "set", l, "to", "''"]
  }

  /** The template the three `User bal` lines share. */
  const Shared: seq<string> := UserLine(Wildcard, Wildcard)

  // The store after each insert.
  const Obj1: ObjState := ObjState(Toks1, [], [1], 0)
  const Obj2: ObjState := ObjState(Toks2, [], [2], 1)
  const Obj3: ObjState := ObjState(Toks3, [], [3], 2)
  const Obj4: ObjState := ObjState(Shared, [2, 4], [3, 4], 2)
  const Obj5: ObjState := ObjState(Shared, [2, 4], [3, 4, 5], 2)
  const State3: MapState := MapState([Obj1, Obj2, Obj3], 3, 3)
  const State4: MapState := MapState([Obj1, Obj2, Obj4], 4, 3)
  const State5: MapState := MapState([Obj1, Obj2, Obj5], 5, 3)

  /** What `param` recovers from the last line: the address in the first
      slot and the level, at token 4, in the second. */
  const Slots5: seq<seq<Entry>> :=
    [[Entry(2, "(192.168.139.3)", Some("bal"), Some("set"))],
     [Entry(4, "'SYSLOG_ERR'", Some("set"), Some("to"))]]

  // ---------------------------------------------------------------------
  // Splitting the lines.

  lemma {:induction false} JoinAppend(a: seq<string>, b: seq<string>)
    requires a != [] && b != []
    ensures JoinSpace(a + b) == JoinSpace(a) + " " + JoinSpace(b)
    decreases |a|
  {
    if |a| == 1 {
      assert (a + b)[1..] == b;
    } else {
      JoinAppend(a[1..], b);
      assert (a + b)[1..] == a[1..] + b;
    }
  }

  lemma JoinHalves(ts: seq<string>, a: seq<string>, b: seq<string>, x: string, y: string)
    requires a != [] && b != [] && ts == a + b && JoinSpace(a) == x && JoinSpace(b) == y
    ensures JoinSpace(ts) == x + " " + y
  {
    JoinAppend(a, b);
  }

  lemma Join3(a: string, b: string, c: string)
    ensures JoinSpace([a, b, c]) == a + " " + b + " " + c
  {
    assert [a, b, c][1..] == [b, c];
    assert [b, c][1..] == [c];
    assert JoinSpace([c]) == c;
    assert JoinSpace([b, c]) == b + " " + c;
    assert JoinSpace([a, b, c]) == a + " " + (b + " " + c);
  }

  lemma Join4(a: string, b: string, c: string, d: string)
    ensures JoinSpace([a, b, c, d]) == a + " " + b + " " + c + " " + d
  {
    assert [a, b, c, d][1..] == [b, c, d];
    Join3(b, c, d);
    assert JoinSpace([a, b, c, d]) == a + " " + (b + " " + c + " " + d);
  }

  /** A line of words joined by single spaces splits back into them. */
  lemma SplitJoined(line: string, ts: seq<string>)
    requires ts != [] && JoinSpace(ts) == line
    requires forall k :: 0 <= k < |ts| ==> IsWord(ts[k])
    ensures Tokenize(line) == ts
  {
    ResplitWords(ts);
  }

  lemma SplitLine1()
    ensures Tokenize(Line1) == Toks1
  {
    assert JoinSpace(Toks1) == Line1;
    SplitJoined(Line1, Toks1);
  }

  lemma HeadLine2()
    ensures JoinSpace(["Cannot", "build", "symbol", "table"]) == "Cannot build symbol table"
  {
    Join4("Cannot", "build", "symbol", "table");
  }

  lemma TailLine2()
    ensures JoinSpace(["-", "disabling", "symbol", "lookups"]) == "- disabling symbol lookups"
  {
    Join4("-", "disabling", "symbol", "lookups");
  }

  lemma JoinLine2()
    ensures JoinSpace(Toks2) == Line2
  {
    HeadLine2();
    TailLine2();
    assert Toks2 == ["Cannot", "build", "symbol", "table"] + ["-", "disabling", "symbol", "lookups"];
    JoinHalves(Toks2, ["Cannot", "build", "symbol", "table"], ["-", "disabling", "symbol", "lookups"], "Cannot build symbol table", "- disabling symbol lookups");
  }

  lemma WordsLine2()
    ensures forall k :: 0 <= k < |Toks2| ==> IsWord(Toks2[k])
  {
  }

  lemma SplitLine2()
    ensures Tokenize(Line2) == Toks2
  {
    JoinLine2();
    WordsLine2();
    SplitJoined(Line2, Toks2);
  }

  lemma HeadLine3()
    ensures JoinSpace(["User", "bal", "(192.168.139.1)"]) == "User bal (192.168.139.1)"
  {
    Join3("User", "bal", "(192.168.139.1)");
  }

  lemma TailLine3()
    ensures JoinSpace(["set", "'SYSLOG_NOTICE'", "to", "''"]) == "set 'SYSLOG_NOTICE' to ''"
  {
    Join4("set", "'SYSLOG_NOTICE'", "to", "''");
  }

  lemma JoinLine3()
    ensures JoinSpace(Toks3) == Line3
  {
    HeadLine3();
    TailLine3();
    assert Toks3 == ["User", "bal", "(192.168.139.1)"] + ["set", "'SYSLOG_NOTICE'", "to", "''"];
    JoinHalves(Toks3, ["User", "bal", "(192.168.139.1)"], ["set", "'SYSLOG_NOTICE'", "to", "''"], "User bal (192.168.139.1)", "set 'SYSLOG_NOTICE' to ''");
  }

  lemma WordsLine3()
    ensures forall k :: 0 <= k < |Toks3| ==> IsWord(Toks3[k])
  {
  }

  lemma SplitLine3()
    ensures Tokenize(Line3) == Toks3
  {
    JoinLine3();
    WordsLine3();
    SplitJoined(Line3, Toks3);
  }

  lemma HeadLine4()
    ensures JoinSpace(["User", "bal", "(192.168.139.2)"]) == "User bal (192.168.139.2)"
  {
    Join3("User", "bal", "(192.168.139.2)");
  }

  lemma TailLine4()
    ensures JoinSpace(["set", "'SYSLOG_WARN'", "to", "''"]) == "set 'SYSLOG_WARN' to ''"
  {
    Join4("set", "'SYSLOG_WARN'", "to", "''");
  }

  lemma JoinLine4()
    ensures JoinSpace(Toks4) == Line4
  {
    HeadLine4();
    TailLine4();
    assert Toks4 == ["User", "bal", "(192.168.139.2)"] + ["set", "'SYSLOG_WARN'", "to", "''"];
    JoinHalves(Toks4, ["User", "bal", "(192.168.139.2)"], ["set", "'SYSLOG_WARN'", "to", "''"], "User bal (192.168.139.2)", "set 'SYSLOG_WARN' to ''");
  }

  lemma WordsLine4()
    ensures forall k :: 0 <= k < |Toks4| ==> IsWord(Toks4[k])
  {
  }

  lemma SplitLine4()
    ensures Tokenize(Line4) == Toks4
  {
    JoinLine4();
    WordsLine4();
    SplitJoined(Line4, Toks4);
  }

  lemma HeadLine5()
    ensures JoinSpace(["User", "bal", "(192.168.139.3)"]) == "User bal (192.168.139.3)"
  {
    Join3("User", "bal", "(192.168.139.3)");
  }

  lemma TailLine5()
    ensures JoinSpace(["set", "'SYSLOG_ERR'", "to", "''"]) == "set 'SYSLOG_ERR' to ''"
  {
    Join4("set", "'SYSLOG_ERR'", "to", "''");
  }

  lemma JoinLine5()
    ensures JoinSpace(Toks5) == Line5
  {
    HeadLine5();
    TailLine5();
    assert Toks5 == ["User", "bal", "(192.168.139.3)"] + ["set", "'SYSLOG_ERR'", "to", "''"];
    JoinHalves(Toks5, ["User", "bal", "(192.168.139.3)"], ["set", "'SYSLOG_ERR'", "to", "''"], "User bal (192.168.139.3)", "set 'SYSLOG_ERR' to ''");
  }

  lemma WordsLine5()
    ensures forall k :: 0 <= k < |Toks5| ==> IsWord(Toks5[k])
  {
  }

  lemma SplitLine5()
    ensures Tokenize(Line5) == Toks5
  {
    JoinLine5();
    WordsLine5();
    SplitJoined(Line5, Toks5);
  }

  // ---------------------------------------------------------------------
  // The first three lines each open an object of their own.

  /** A template none of whose tokens occurs in the input aligns nothing. */
  lemma {:induction false} AlignDisjoint(t: seq<string>, pos: seq<nat>, s: seq<string>, i: nat, next: nat)
    requires forall a, b :: 0 <= a < |t| && 0 <= b < |s| ==> t[a] != s[b]
    ensures Align(t, pos, s, i, next) == []
    decreases |t| - i
  {
    if i < |t| {
      AlignDisjoint(t, pos, s, i + 1, next);
    }
  }

  lemma Insert1()
    ensures InsertTokens(MapState([], 0, 0), Toks1) == MapState([Obj1], 1, 1)
  {
  }

  /** The two-token object is too short for the eight-token line. */
  lemma Insert2()
    ensures InsertTokens(MapState([Obj1], 1, 1), Toks2) == MapState([Obj1, Obj2], 2, 2)
  {
    var sc := Scores([Obj1], Toks2);
    assert |sc| == 1 && sc[0].len == 2;
    assert MatchFrom(sc, 8, 1, None, 0) == None;
    assert MatchSpec([Obj1], Toks2) == None;
  }

  /** The eight-token object has the right length but shares no token. */
  lemma Insert3()
    ensures InsertTokens(MapState([Obj1, Obj2], 2, 2), Toks3) == State3
  {
    AlignDisjoint(Toks2, [], Toks3, 0, 0);
    var sc := Scores([Obj1, Obj2], Toks3);
    assert |sc| == 2 && sc[0].len == 2 && sc[1] == Score(8, 0);
    assert MatchFrom(sc, 7, 2, None, 0) == None;
    assert MatchFrom(sc, 7, 1, None, 0) == None;
    assert MatchSpec([Obj1, Obj2], Toks3) == None;
  }

  // ---------------------------------------------------------------------
  // The `User bal` lines, for any address and level.

  /** What the greedy scan of one `User bal` line against another needs:
      the template's address and level occur nowhere from where the scan
      looks for them, and the fixed words stand where they are looked for. */
  predicate Apart(a: string, l: string, a': string, l': string) {
    a != a' && a != "set" && a != l' && a != "to" && a != "''"
    && l != l' && l != "to" && l != "''" && a' != "set" && l' != "to"
  }

  lemma UserFinds(a: string, l: string, a': string, l': string)
    requires Apart(a, l, a', l')
    ensures var t, s := UserLine(a, l), UserLine(a', l');
      FindFrom(t[0], s, 0) == Some(0) && FindFrom(t[1], s, 1) == Some(1)
      && FindFrom(t[2], s, 2) == None && FindFrom(t[3], s, 2) == Some(3)
      && FindFrom(t[4], s, 4) == None && FindFrom(t[5], s, 4) == Some(5)
      && FindFrom(t[6], s, 6) == Some(6)
  {
    var t, s := UserLine(a, l), UserLine(a', l');
    assert FindFrom(t[2], s, 7) == None;
    assert FindFrom(t[2], s, 5) == None;
    assert FindFrom(t[2], s, 3) == None;
    assert FindFrom(t[4], s, 7) == None;
    assert FindFrom(t[4], s, 5) == None;
  }

  /** `getlcs` of one `User bal` line against another matches the five
      fixed words. */
  lemma UserAlign(a: string, l: string, a': string, l': string)
    requires Apart(a, l, a', l')
    ensures Align(UserLine(a, l), [], UserLine(a', l'), 0, 0) == [(0, 0), (1, 1), (3, 3), (5, 5), (6, 6)]
  {
    var t, s := UserLine(a, l), UserLine(a', l');
    UserFinds(a, l, a', l');
    assert Align(t, [], s, 6, 6) == [(6, 6)];
    assert Align(t, [], s, 5, 4) == [(5, 5), (6, 6)];
    assert Align(t, [], s, 3, 2) == [(3, 3), (5, 5), (6, 6)];
    assert Align(t, [], s, 1, 1) == [(1, 1), (3, 3), (5, 5), (6, 6)];
  }

  /** Merging one `User bal` line into another puts a wildcard where the
      address and where the level stood. */
  lemma UserMergeOut(a: string, l: string, a': string, l': string)
    requires Apart(a, l, a', l')
    ensures MergeOut(UserLine(a, l), [], UserLine(a', l'), 0, 0, false) == Shared
  {
    var t, s := UserLine(a, l), UserLine(a', l');
    UserFinds(a, l, a', l');
    assert MergeOut(t, [], s, 6, 6, false) == ["''"];
    assert MergeOut(t, [], s, 5, 4, true) == ["to", "''"];
    assert MergeOut(t, [], s, 4, 4, false) == ["*", "to", "''"];
    assert MergeOut(t, [], s, 3, 2, true) == ["set", "*", "to", "''"];
    assert MergeOut(t, [], s, 2, 2, false) == ["*", "set", "*", "to", "''"];
    assert MergeOut(t, [], s, 1, 1, false) == ["bal", "*", "set", "*", "to", "''"];
  }

  lemma SharedFinds(w: string, w': string, a: string, l: string)
    requires a != "set" && l != "to"
    ensures var t, s := UserLine(w, w'), UserLine(a, l);
      FindFrom(t[0], s, 0) == Some(0) && FindFrom(t[1], s, 1) == Some(1)
      && FindFrom(t[3], s, 2) == Some(3) && FindFrom(t[5], s, 4) == Some(5)
      && FindFrom(t[6], s, 6) == Some(6)
  {
  }

  /** `getlcs` of the shared template against a `User bal` line. */
  lemma SharedAlign(w: string, w': string, a: string, l: string)
    requires a != "set" && l != "to"
    ensures Align(UserLine(w, w'), [2, 4], UserLine(a, l), 0, 0) == [(0, 0), (1, 1), (3, 3), (5, 5), (6, 6)]
  {
    var t, s := UserLine(w, w'), UserLine(a, l);
    SharedFinds(w, w', a, l);
    assert Align(t, [2, 4], s, 6, 6) == [(6, 6)];
    assert Align(t, [2, 4], s, 4, 4) == [(5, 5), (6, 6)];
    assert Align(t, [2, 4], s, 2, 2) == [(3, 3), (5, 5), (6, 6)];
    assert Align(t, [2, 4], s, 1, 1) == [(1, 1), (3, 3), (5, 5), (6, 6)];
  }

  /** Merging a `User bal` line into the shared template keeps it. */
  lemma SharedMergeOut(w: string, w': string, a: string, l: string)
    requires a != "set" && l != "to"
    ensures MergeOut(UserLine(w, w'), [2, 4], UserLine(a, l), 0, 0, false) == Shared
  {
    var t, s := UserLine(w, w'), UserLine(a, l);
    SharedFinds(w, w', a, l);
    assert MergeOut(t, [2, 4], s, 6, 6, false) == ["''"];
    assert MergeOut(t, [2, 4], s, 5, 4, true) == ["to", "''"];
    assert MergeOut(t, [2, 4], s, 4, 4, false) == ["*", "to", "''"];
    assert MergeOut(t, [2, 4], s, 3, 2, true) == ["set", "*", "to", "''"];
    assert MergeOut(t, [2, 4], s, 2, 2, false) == ["*", "set", "*", "to", "''"];
    assert MergeOut(t, [2, 4], s, 1, 1, false) == ["bal", "*", "set", "*", "to", "''"];
  }

  lemma SetLastNextOne(e: Entry, tok: string)
    ensures SetLastNext([[e]], tok) == [[e.(next := Some(tok))]]
  {
    assert [e][0 := e.(next := Some(tok))] == [e.(next := Some(tok))];
  }

  lemma SetLastNextTwo(x: seq<Entry>, e: Entry, tok: string)
    ensures SetLastNext([x, [e]], tok) == [x, [e.(next := Some(tok))]]
  {
    assert [e][0 := e.(next := Some(tok))] == [e.(next := Some(tok))];
    var u := [x, [e]][1 := [e.(next := Some(tok))]];
    assert |u| == 2 && u[0] == x && u[1] == [e.(next := Some(tok))];
  }

  /** `param` of a `User bal` line against the shared template: the address
      fills the first slot and the level the second, each with the fixed
      words around it as context. */
  lemma SharedParam(w: string, w': string, a: string, l: string)
    requires a != "set" && l != "to"
    ensures SlotsOf(UserLine(w, w'), [2, 4], UserLine(a, l))
         == Ok([[Entry(2, a, Some("bal"), Some("set"))], [Entry(4, l, Some("set"), Some("to"))]])
  {
    var t, s := UserLine(w, w'), UserLine(a, l);
    var e2 := Entry(2, a, Some("bal"), None);
    var e4 := Entry(4, l, Some("set"), None);
    var r := [[e2.(next := Some("set"))], [e4.(next := Some("to"))]];
    assert ScanSlot(t, s, 2, 3, None, true) == ([], 3, None, true);
    assert [e2] + [] == [e2] && [e4] + [] == [e4];
    assert ScanSlot(t, s, 2, 2, Some("bal"), false) == ([e2], 3, None, true);
    assert ScanSlot(t, s, 4, 5, None, true) == ([], 5, None, true);
    assert ScanSlot(t, s, 4, 4, Some("set"), false) == ([e4], 5, None, true);
    var r1 := [[e2.(next := Some("set"))]];
    SetLastNextOne(e2, "set");
    SetLastNextTwo(r1[0], e4, "to");
    assert r1 + [[e4]] == [r1[0], [e4]];
    assert ParamLoop(t, [2, 4], s, 7, 7, r, Some("''"), false) == Ok(r);
    assert ParamLoop(t, [2, 4], s, 6, 6, r, Some("to"), false) == Ok(r);
    assert ParamLoop(t, [2, 4], s, 5, 5, r1 + [[e4]], None, true) == Ok(r);
    assert ParamLoop(t, [2, 4], s, 4, 4, r1, Some("set"), false) == Ok(r);
    assert ParamLoop(t, [2, 4], s, 3, 3, [[e2]], None, true) == Ok(r);
    assert [] + [[e2]] == [[e2]];
    assert ParamLoop(t, [2, 4], s, 2, 2, [], Some("bal"), false) == Ok(r);
    assert ParamLoop(t, [2, 4], s, 1, 1, [], Some("User"), false) == Ok(r);
  }

  /** No word of the second line is as long as a word of a `User bal` line
      whose address and level are long, so they share no token. */
  lemma SecondApart(a: string, l: string)
    requires |a| > 9 && |l| > 9
    ensures Count(Obj2, UserLine(a, l)) == 0
  {
    var s := UserLine(a, l);
    assert forall x, y :: 0 <= x < |Toks2| && 0 <= y < |s| ==> |Toks2[x]| != |s[y]|;
    AlignDisjoint(Toks2, [], s, 0, 0);
  }

  /** `match` over three objects of 2, 8 and 7 tokens for a 7-token line,
      when only the last shares tokens with it. */
  lemma MatchThird(o1: ObjState, o2: ObjState, o3: ObjState, s: seq<string>)
    requires |s| == 7 && |o1.lcsseq| == 2 && |o2.lcsseq| == 8 && |o3.lcsseq| == 7
    requires Count(o2, s) == 0 && Count(o3, s) == 5
    ensures MatchSpec([o1, o2, o3], s) == Some(2)
  {
    var sc := Scores([o1, o2, o3], s);
    assert sc[0].len == 2 && sc[1] == Score(8, 0) && sc[2] == Score(7, 5);
    assert MatchFrom(sc, 7, 2, None, 0) == Some(2);
    assert MatchFrom(sc, 7, 1, None, 0) == Some(2);
  }

  lemma UpdateThird(a: ObjState, b: ObjState, c: ObjState, d: ObjState)
    ensures [a, b, c][2 := d] == [a, b, d]
  {
    var u := [a, b, c][2 := d];
    assert |u| == 3 && u[0] == a && u[1] == b && u[2] == d;
  }

  /** An insert of three objects whose match is the third: the third
      merges the tokens into template `t` under the next line id. */
  lemma MergeThird(o1: ObjState, o2: ObjState, o3: ObjState, s: seq<string>, t: seq<string>, lineid: int, objid: int)
    requires MatchSpec([o1, o2, o3], s) == Some(2) && Merged(o3.lcsseq, o3.pos, s) == t
    ensures InsertTokens(MapState([o1, o2, o3], lineid, objid), s)
         == MapState([o1, o2, ObjState(t, WildPositions(t, 0), o3.lineids + [lineid + 1], o3.objid)], lineid + 1, objid)
  {
    UpdateThird(o1, o2, o3, ObjState(t, WildPositions(t, 0), o3.lineids + [lineid + 1], o3.objid));
  }

  lemma SharedSlots()
    ensures WildPositions(Shared, 0) == [2, 4]
  {
    assert WildPositions(Shared, 5) == [];
    assert WildPositions(Shared, 3) == [4];
    assert WildPositions(Shared, 0) == [2, 4];
  }

  // ---------------------------------------------------------------------
  // The fourth line merges into the third line's object.

  /** The addresses differ only in their last character. */
  lemma AddressesApart()
    ensures Addr3 != Addr4
  {
    assert Addr3[13] != Addr4[13];
  }

  lemma Match4()
    ensures MatchSpec(State3.objs, Toks4) == Some(2)
  {
    AddressesApart();
    UserAlign(Addr3, Level3, Addr4, Level4);
    SecondApart(Addr4, Level4);
    MatchThird(Obj1, Obj2, Obj3, Toks4);
  }

  lemma Merge4()
    ensures Merged(Toks3, [], Toks4) == Shared
  {
    WordsLine3();
    WordsLine4();
    MergedIsOut(Toks3, [], Toks4);
    AddressesApart();
    UserMergeOut(Addr3, Level3, Addr4, Level4);
  }

  lemma Insert4()
    ensures InsertTokens(State3, Toks4) == State4
  {
    Match4();
    Merge4();
    SharedSlots();
    assert Obj3.lineids + [4] == Obj4.lineids;
    assert ObjState(Shared, WildPositions(Shared, 0), Obj3.lineids + [4], Obj3.objid) == Obj4;
    MergeThird(Obj1, Obj2, Obj3, Toks4, Shared, 3, 3);
  }

  // ---------------------------------------------------------------------
  // The fifth line fits the shared template as it is.

  lemma Match5()
    ensures MatchSpec(State4.objs, Toks5) == Some(2)
  {
    SharedAlign(Wildcard, Wildcard, Addr5, Level5);
    SecondApart(Addr5, Level5);
    MatchThird(Obj1, Obj2, Obj4, Toks5);
  }

  lemma Merge5()
    ensures Merged(Shared, [2, 4], Toks5) == Shared
  {
    assert IsTokens(Shared);
    WordsLine5();
    MergedIsOut(Shared, [2, 4], Toks5);
    SharedMergeOut(Wildcard, Wildcard, Addr5, Level5);
  }

  lemma Insert5()
    ensures InsertTokens(State4, Toks5) == State5
  {
    Match5();
    Merge5();
    SharedSlots();
    assert Obj4.lineids + [5] == Obj5.lineids;
    assert ObjState(Shared, WildPositions(Shared, 0), Obj4.lineids + [5], Obj4.objid) == Obj5;
    MergeThird(Obj1, Obj2, Obj4, Toks5, Shared, 4, 3);
  }

  lemma Param5()
    ensures SlotsOf(Shared, [2, 4], Toks5) == Ok(Slots5)
  {
    SharedParam(Wildcard, Wildcard, Addr5, Level5);
  }

  // ---------------------------------------------------------------------
  // The whole run.

  /** Inserting the five lines into an empty store leaves three objects; the
      last line merges into the third, whose template reads
      `User bal * set * to ''`, and `param` on that line finds
      `(192.168.139.3)` in the first slot and `'SYSLOG_ERR'` at token 4 in
      the second. */
  lemma RunLine1()
    ensures InsertState(MapState([], 0, 0), Line1) == MapState([Obj1], 1, 1)
  {
    SplitLine1();
    Insert1();
  }

  lemma RunLine2()
    ensures InsertState(MapState([Obj1], 1, 1), Line2) == MapState([Obj1, Obj2], 2, 2)
  {
    SplitLine2();
    Insert2();
  }

  lemma RunLine3()
    ensures InsertState(MapState([Obj1, Obj2], 2, 2), Line3) == State3
  {
    SplitLine3();
    Insert3();
  }

  lemma RunLine4()
    ensures InsertState(State3, Line4) == State4
  {
    SplitLine4();
    Insert4();
  }

  lemma RunLine5()
    ensures InsertState(State4, Line5) == State5
    ensures MatchSpec(State4.objs, Tokenize(Line5)) == Some(2)
  {
    SplitLine5();
    Insert5();
    Match5();
  }

  /** `lcsseq()` of the shared template. */
  lemma SharedText()
    ensures JoinSpace(Shared) == "User bal * set * to ''"
  {
    var a, b := ["User", "bal", "*"], ["set", "*", "to", "''"];
    Join3("User", "bal", "*");
    Join4("set", "*", "to", "''");
    assert Shared == a + b;
    JoinHalves(Shared, a, b, "User bal *", "set * to ''");
  }

  /** Inserting the five lines into an empty store leaves three objects; the
      last line merges into the third, whose template reads
      `User bal * set * to ''`, and `param` on that line finds
      `(192.168.139.3)` in the first slot and `'SYSLOG_ERR'` at token 4 in
      the second. */
  lemma ParseExample()
    ensures var st4 := InsertState(InsertState(InsertState(InsertState(MapState([], 0, 0), Line1), Line2), Line3), Line4);
      var st5 := InsertState(st4, Line5);
      MatchSpec(st4.objs, Tokenize(Line5)) == Some(2)
      && st5 == State5
      && JoinSpace(st5.objs[2].lcsseq) == "User bal * set * to ''"
      && SlotsOf(st5.objs[2].lcsseq, st5.objs[2].pos, Tokenize(Line5)) == Ok(Slots5)
    ensures Slots5[0][0].token == "(192.168.139.3)"
    ensures Slots5[1][0].token == "'SYSLOG_ERR'" && Slots5[1][0].index == 4
  {
    RunLine1();
    RunLine2();
    RunLine3();
    RunLine4();
    RunLine5();
    SplitLine5();
    Param5();
    SharedText();
  }
}
