/** assertNoDuplicateTopLevelKeys: looking for two members of the top-level object whose names
    decode to the same string. */
module JsonDuplicates {
  import opened Wrappers
  import opened Utf8
  import opened JsonGrammar
  import opened JsonSkip
  import opened JsonSkipCorrect

  /** What the parser makes of the inside of a string token; None is a syntax error. */
  function Unescape(b: seq<unit>): Option<seq<unit>> {
    if b == [] then Some([])
    else if b[0] != BACKSLASH then
      if b[0] < 0x20 || b[0] == QUOTE then None else Then(b[0], Unescape(b[1..]))
    else if |b| >= 6 && b[1] == 0x75 then
      var p := Unicode(b[2], b[3], b[4], b[5]);
      if PieceOk(p) then Then(Meaning(p), Unescape(b[6..])) else None
    else if |b| >= 2 && PieceOk(Escape(b[1])) then Then(Meaning(Escape(b[1])), Unescape(b[2..]))
    else None
  }

  function Then(u: unit, rest: Option<seq<unit>>): Option<seq<unit>> {
    if rest.Some? then Some([u] + rest.value) else None
  }

  lemma {:induction false} UnescapeShown(ps: seq<Piece>)
    requires PiecesOk(ps)
    ensures Unescape(ShowPieces(ps)) == Some(Decode(ps))
  {
    if ps != [] {
      hide PieceOk, Meaning;
      UnescapeShown(ps[1..]);
      PieceFirst(ps[0], ShowPieces(ps[1..]));
    }
  }

  lemma PieceFirst(p: Piece, rest: seq<unit>)
    requires PieceOk(p)
    ensures Unescape(ShowPiece(p) + rest) == Then(Meaning(p), Unescape(rest))
  {
    var b := ShowPiece(p) + rest;
    assert b[|ShowPiece(p)|..] == rest;
  }

  // ---------------------------------------------------------------- the search

  /** From a place where a member, a comma or the end is due. */
  function TopMembers(t: seq<unit>, i: nat, seen: set<seq<unit>>, first: bool): bool
    requires i <= |t|
    decreases |t| - i, 1
  {
    var j := SkipBlanks(t, i);
    if j >= |t| || t[j] == CLOSE_OBJECT then false
    else if first then TopName(t, j, seen)
    else if t[j] != COMMA then false
    else TopName(t, SkipBlanks(t, j + 1), seen)
  }

  /** From a place where a name is due. */
  function TopName(t: seq<unit>, i: nat, seen: set<seq<unit>>): bool
    requires i <= |t|
    decreases |t| - i, 0
  {
    if i >= |t| || t[i] != QUOTE then false
    else
      var keyEnd := StringEnd(t, i + 1);
      if keyEnd == -1 then false
      else
        var name := Unescape(t[i + 1..keyEnd]);
        if name.None? then false
        else if name.value in seen then true
        else
          var colon := SkipBlanks(t, keyEnd + 1);
          if colon >= |t| || t[colon] != COLON then false
          else
            var end := SkipValue(t, colon + 1, 0);
            if end == -1 then false else TopMembers(t, end, seen + {name.value}, false)
  }

  /** Whether the check throws. */
  function Duplicate(t: seq<unit>): bool {
    var i := SkipBlanks(t, 0);
    i < |t| && t[i] == OPEN_OBJECT && TopMembers(t, i + 1, {}, true)
  }

  method AssertNoDuplicateTopLevelKeys(t: seq<unit>) returns (throws: bool)
    ensures throws == Duplicate(t)
  {
    hide SkipValue, StringEnd, SkipBlanks, Unescape, TopName;
    var i: int := SkipJsonWhitespace(t, 0);
    if i >= |t| || t[i] != OPEN_OBJECT { return false; }
    i := i + 1;
    var seen: set<seq<unit>> := {};
    var first := true;
    while true
      invariant 0 <= i <= |t| && TopMembers(t, i, seen, first) == Duplicate(t)
      decreases |t| - i
    {
      i := SkipJsonWhitespace(t, i);
      if i >= |t| || t[i] == CLOSE_OBJECT { return false; }
      if !first {
        if t[i] != COMMA { return false; }
        i := SkipJsonWhitespace(t, i + 1);
      }
      throws, i, seen := ReadMember(t, i, seen);
      if i == -1 { return; }
      first := false;
    }
  }

  /** One member from its name on; end is -1 when the search stops with it. */
  method ReadMember(t: seq<unit>, start: nat, seen: set<seq<unit>>) returns (throws: bool, end: int, names: set<seq<unit>>)
    requires start <= |t|
    ensures end == -1 || start < end <= |t|
    ensures TopName(t, start, seen) == if end == -1 then throws else TopMembers(t, end, names, false)
  {
    hide SkipValue, StringEnd, SkipBlanks, Unescape, TopMembers;
    names := seen;
    if start >= |t| || t[start] != QUOTE { return false, -1, names; }
    var keyEnd := ScanJsonStringEnd(t, start);
    if keyEnd == -1 { return false, -1, names; }
    var decoded := Unescape(t[start + 1..keyEnd]);
    if decoded.None? { return false, -1, names; }
    if decoded.value in seen { return true, -1, names; }
    names := seen + {decoded.value};
    var i := SkipJsonWhitespace(t, keyEnd + 1);
    if i >= |t| || t[i] != COLON { return false, -1, names; }
    end := SkipJsonValue(t, i + 1, 0);
    throws := false;
  }

  // ---------------------------------------------------------------- against the grammar

  function Names(ms: Members): seq<seq<unit>> {
    [Decode(ms.name)] + (if ms.next.None? then [] else Names(ms.next.value))
  }

  /** The names the search gets to see: all, up to and including that of the first value nested
      too deeply. */
  function SeenNames(ms: Members): (names: seq<seq<unit>>)
    ensures names <= Names(ms)
  {
    [Decode(ms.name)] + (if Nesting(ms.value) > MAX_DEPTH || ms.next.None? then [] else SeenNames(ms.next.value))
  }

  lemma {:induction false} AllSeen(ms: Members)
    requires MembersNesting(ms) <= MAX_DEPTH
    ensures SeenNames(ms) == Names(ms)
  {
    if ms.next.Some? { AllSeen(ms.next.value); }
  }

  predicate Repeats(seen: set<seq<unit>>, names: seq<seq<unit>>)
    decreases names
  {
    names != [] && (names[0] in seen || Repeats(seen + {names[0]}, names[1..]))
  }

  predicate HasRepeat(names: seq<seq<unit>>) {
    exists i, j :: 0 <= i < j < |names| && names[i] == names[j]
  }

  lemma {:induction false} RepeatsIff(seen: set<seq<unit>>, names: seq<seq<unit>>)
    ensures Repeats(seen, names) <==> HasRepeat(names) || exists i :: 0 <= i < |names| && names[i] in seen
    decreases names
  {
    if names != [] {
      var n, rest := names[0], names[1..];
      RepeatsIff(seen + {n}, rest);
      assert forall i | 0 <= i < |rest| :: rest[i] == names[i + 1];
      if HasRepeat(rest) {
        var i, j :| 0 <= i < j < |rest| && rest[i] == rest[j];
        assert names[i + 1] == names[j + 1];
      }
      if exists i :: 0 <= i < |rest| && rest[i] in seen + {n} {
        var i :| 0 <= i < |rest| && rest[i] in seen + {n};
        assert names[i + 1] in seen || names[0] == names[i + 1];
      }
      if HasRepeat(names) {
        var i, j :| 0 <= i < j < |names| && names[i] == names[j];
        assert rest[j - 1] == names[j];
        if i > 0 { assert rest[i - 1] == rest[j - 1]; }
      }
      if exists i :: 0 <= i < |names| && names[i] in seen {
        var i :| 0 <= i < |names| && names[i] in seen;
        if i > 0 { assert rest[i - 1] in seen + {n}; }
      }
    }
  }

  /** One member, as the search sees it. */
  lemma TopNameStep(t: seq<unit>, i: nat, ms: Members, seen: set<seq<unit>>)
    requires MembersOk(ms) && At(t, i, ShowMembers(ms))
    ensures var p := PlacesOf(i, ms);
            && p.open <= |t| && p.last < |t|
            && TopName(t, p.open, seen) ==
               if Decode(ms.name) in seen then true
               else if Nesting(ms.value) > MAX_DEPTH || ms.next.None? then false
               else TopName(t, SkipBlanks(t, p.last + 1), seen + {Decode(ms.name)})
  {
    hide At, Ended, Blanks, ValueOk, ShowPieces, Show, ShowMembers, SkipValue, SkipBlanks, StringEnd, Nesting, Unescape, Decode;
    var p := PlacesOf(i, ms);
    MemberScanned(t, i, ms);
    TokenText(t, i, ms);
    UnescapeShown(ms.name);
    ValueSkipped(t, p.colon + 1, 0, ms.w3, ms.value);
  }

  lemma {:induction false} TopNameFinds(t: seq<unit>, i: nat, ms: Members, seen: set<seq<unit>>)
    requires MembersOk(ms) && At(t, i, ShowMembers(ms))
    ensures TopName(t, PlacesOf(i, ms).open, seen) == Repeats(seen, SeenNames(ms))
    decreases ms
  {
    hide At, ShowMembers, Nesting, Decode, TopName, SkipBlanks;
    var p := PlacesOf(i, ms);
    TopNameStep(t, i, ms, seen);
    var name := Decode(ms.name);
    if name !in seen {
      if Nesting(ms.value) <= MAX_DEPTH && ms.next.Some? {
        assert SeenNames(ms)[1..] == SeenNames(ms.next.value);
        NextMember(t, i, ms);
        NextName(t, p.last + 1, ms.next.value);
        TopNameFinds(t, p.last + 1, ms.next.value, seen + {name});
      } else {
        assert SeenNames(ms)[1..] == [];
      }
    }
  }

  lemma NextMember(t: seq<unit>, i: nat, ms: Members)
    requires MembersOk(ms) && At(t, i, ShowMembers(ms)) && ms.next.Some?
    ensures At(t, PlacesOf(i, ms).last + 1, ShowMembers(ms.next.value))
  {
    hide At, ShowMembers;
    MemberScanned(t, i, ms);
  }

  lemma TokenText(t: seq<unit>, i: nat, ms: Members)
    requires MembersOk(ms) && At(t, i, ShowMembers(ms))
    ensures var p := PlacesOf(i, ms);
            p.close <= |t| && t[p.open + 1..p.close] == ShowPieces(ms.name)
  {
    hide ShowPieces, ShowMembers;
    MemberHead(t, i, ms);
    AtSplit(t, PlacesOf(i, ms).open + 1, ShowPieces(ms.name), [QUOTE]);
  }

  lemma NextName(t: seq<unit>, i: nat, ms: Members)
    requires MembersOk(ms) && At(t, i, ShowMembers(ms))
    ensures i <= |t| && SkipBlanks(t, i) == PlacesOf(i, ms).open
  {
    hide ShowMembers;
    MemberScanned(t, i, ms);
  }

  /** On an object whose text the grammar generates, whatever follows it, the check throws exactly
      when two names it gets to see are the same string. */
  lemma DuplicateIff(t: seq<unit>, w: seq<unit>, ms: Members)
    requires Blanks(w) && MembersOk(ms) && At(t, 0, w + Show(Object(ms)))
    ensures Duplicate(t) <==> HasRepeat(SeenNames(ms))
    ensures MembersNesting(ms) <= MAX_DEPTH ==> (Duplicate(t) <==> HasRepeat(Names(ms)))
  {
    hide At, ShowMembers, SkipBlanks, TopName, MembersNesting;
    var j := |w|;
    AtSplit(t, 0, w, Show(Object(ms)));
    AtFirst(t, j, Show(Object(ms)));
    BlanksSkipped(t, 0, w);
    ObjectOpens(t, j, ms);
    NextName(t, j + 1, ms);
    TopNameFinds(t, j + 1, ms, {});
    RepeatsIff({}, SeenNames(ms));
    if MembersNesting(ms) <= MAX_DEPTH { AllSeen(ms); }
  }

  /** An empty object never throws. */
  lemma EmptyObjectPasses(t: seq<unit>, w: seq<unit>, b: seq<unit>)
    requires Blanks(w) && Blanks(b) && At(t, 0, w + Show(EmptyObject(b)))
    ensures !Duplicate(t)
  {
    hide At, SkipBlanks, TopName;
    var j := |w|;
    assert Show(EmptyObject(b)) == [OPEN_OBJECT] + (b + [CLOSE_OBJECT]);
    AtSplit(t, 0, w, [OPEN_OBJECT] + (b + [CLOSE_OBJECT]));
    AtSplit(t, j, [OPEN_OBJECT], b + [CLOSE_OBJECT]);
    AtFirst(t, j, [OPEN_OBJECT]);
    AtSplit(t, j + 1, b, [CLOSE_OBJECT]);
    AtFirst(t, j + 1 + |b|, [CLOSE_OBJECT]);
    BlanksSkipped(t, 0, w);
    BlanksSkipped(t, j + 1, b);
  }
}
