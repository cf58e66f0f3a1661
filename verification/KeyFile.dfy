/** Board keys: the line `claim` saves (host/cli.zig), the configuration reader, and lookupPsk (host/settings.zig). */
module KeyFile {
  import opened Bytes
  import opened Text
  import opened Config
  import opened Settings
  import opened Resolving
  import opened Schema

  type Key = k: seq<byte> | |k| == 32 witness [
    0, 0, 0, 0, 0, 0, 0, 0, 0, 0, 0, 0, 0, 0, 0, 0, 0, 0, 0, 0, 0, 0, 0, 0, 0, 0, 0, 0, 0, 0, 0, 0]

  function HexToPsk(hex: string): Option<Key> {
    if |hex| != 64 then None else
    var r := Unhex(hex);
    if r.None? then None else Some(r.value)
  }

  /** The key an entry gives for a board: the name must match in any letter case, the key must be well formed. */
  function EntryFor(e: string, bdaddr: string): Option<Key> {
    var eq := IndexOf(e, '=');
    if eq.None? then None
    else if !EqualIgnoreCase(Trim(e[..eq.value], " "), bdaddr) then None
    else HexToPsk(Trim(e[eq.value + 1..], " "))
  }

  function EntriesFor(entries: seq<string>, bdaddr: string): (r: seq<Option<Key>>)
    ensures |r| == |entries| && forall i :: 0 <= i < |entries| ==> r[i] == EntryFor(entries[i], bdaddr)
  {
    seq(|entries|, i requires 0 <= i < |entries| => EntryFor(entries[i], bdaddr))
  }

  /** The key of a board: the last valid entry. */
  function Lookup(entries: seq<string>, bdaddr: string): Option<Key> {
    LastSome(EntriesFor(entries, bdaddr))
  }

  /** A later list decides; an earlier one counts only when the later holds no valid entry. */
  lemma LookupConcat(a: seq<string>, b: seq<string>, bdaddr: string)
    ensures Lookup(a + b, bdaddr) == if Lookup(b, bdaddr).Some? then Lookup(b, bdaddr) else Lookup(a, bdaddr)
  {
    hide LastSome, EntryFor;
    assert EntriesFor(a + b, bdaddr) == EntriesFor(a, bdaddr) + EntriesFor(b, bdaddr);
    LastSomeConcat(EntriesFor(a, bdaddr), EntriesFor(b, bdaddr));
  }

  lemma LookupOne(e: string, bdaddr: string)
    ensures Lookup([e], bdaddr) == EntryFor(e, bdaddr)
  {
    hide LastSome, EntryFor;
    assert EntriesFor([e], bdaddr) == [EntryFor(e, bdaddr)];
    LastOfOne(EntryFor(e, bdaddr));
  }

  lemma LookupSnoc(entries: seq<string>, i: nat, bdaddr: string)
    requires i < |entries|
    ensures Lookup(entries[..i + 1], bdaddr) ==
            var r := EntryFor(entries[i], bdaddr);
            if r.Some? then r else Lookup(entries[..i], bdaddr)
  {
    hide Lookup, EntryFor;
    TakeSnoc(entries, i);
    LookupConcat(entries[..i], [entries[i]], bdaddr);
    LookupOne(entries[i], bdaddr);
  }

  /** lookupPsk: the scan from the end. */
  method LookupPsk(entries: seq<string>, bdaddr: string) returns (r: Option<Key>)
    ensures r == Lookup(entries, bdaddr)
  {
    hide Lookup, HexToPsk, Trim, EqualIgnoreCase;
    var i := |entries|;
    JoinSlices(entries, 0, i, i);
    while i > 0
      invariant 0 <= i <= |entries|
      invariant Lookup(entries, bdaddr) == Lookup(entries[..i], bdaddr)
    {
      i := i - 1;
      LookupSnoc(entries, i, bdaddr);
      var e := entries[i];
      var eq := IndexOf(e, '=');
      if eq.None? {
        continue;
      }
      if !EqualIgnoreCase(Trim(e[..eq.value], " "), bdaddr) {
        continue;
      }
      var p := HexToPsk(Trim(e[eq.value + 1..], " "));
      if p.Some? {
        return p;
      }
    }
    LookupNothing(entries, bdaddr);
    return None;
  }

  lemma LookupNothing(entries: seq<string>, bdaddr: string)
    ensures Lookup(entries[..0], bdaddr) == None
  {
  }

  // ------------------------------------------------------------------
  // The line that claim saves
  // ------------------------------------------------------------------

  function Entry(bdaddr: string, key: Key): string {
    bdaddr + "=" + Hex(key)
  }

  function ClaimLine(bdaddr: string, key: Key): string {
    "psk = " + Entry(bdaddr, key) + "\n"
  }

  predicate HasComment(text: string) {
    exists i :: 0 <= i < |text| && CommentAt(text, i)
  }

  /** The addresses the file format can carry. */
  predicate Storable(bdaddr: string) {
    && Free(bdaddr, '=') && Free(bdaddr, '\n')
    && (bdaddr != "" ==> bdaddr[0] !in BLANKS && bdaddr[|bdaddr| - 1] != ' ')
    && !HasComment(bdaddr)
  }

  lemma {:induction false} HexDigitsOnly(bytes: seq<byte>)
    ensures forall i :: 0 <= i < |Hex(bytes)| ==> HexValue(Hex(bytes)[i]).Some?
  {
    if bytes != [] {
      HexDigitsOnly(bytes[1..]);
      HexDigitValue(bytes[0] / 16, HexDigit(bytes[0] / 16));
      HexDigitValue(bytes[0] % 16, HexDigit(bytes[0] % 16));
    }
  }

  /** Hex text holds no separator. */
  lemma HexIsPlain(key: Key)
    ensures forall c :: HexValue(c).None? ==> Free(Hex(key), c)
    ensures Hex(key)[63] !in " \t\r" && Hex(key)[0] !in BLANKS
  {
    HexDigitsOnly(key);
  }

  lemma NoCommentIn(text: string)
    requires !HasComment(text)
    ensures StripComment(text) == text
  {
  }

  lemma TrimPskKey()
    ensures Trim("psk ", BLANKS) == "psk"
  {
    assert TrimLeft("psk ", BLANKS) == "psk ";
    assert "psk "[..3] == "psk";
    assert TrimRight("psk", BLANKS) == "psk";
  }

  lemma TrimOneBlank(v: string)
    requires v != "" && v[0] !in BLANKS && v[|v| - 1] !in BLANKS
    ensures Trim(" " + v, BLANKS) == v
  {
    assert (" " + v)[1..] == v;
    TrimNothing(v, BLANKS);
  }

  lemma ReadPskLine(v: string, source: string)
    requires v != "" && v[0] !in BLANKS && v[|v| - 1] !in " \t\r" && !HasComment("psk = " + v)
    ensures ReadLine("psk = " + v, source) == [Pair("psk", v, source)]
  {
    hide Trim, StripComment, IndexOf, HasComment;
    var line := "psk = " + v;
    NoCommentIn(line);
    TrimNothing(line, " \t\r");
    assert line == "psk " + "=" + (" " + v);
    IndexOfHead("psk ", " " + v, '=');
    assert line[..4] == "psk " && line[5..] == " " + v;
    TrimPskKey();
    TrimOneBlank(v);
  }

  /** A comment in the line would be a comment in the address. */
  lemma NoCommentInLine(bdaddr: string, key: Key)
    requires !HasComment(bdaddr)
    ensures !HasComment("psk = " + Entry(bdaddr, key))
  {
    hide Hex;
    HexIsPlain(key);
    var line := "psk = " + Entry(bdaddr, key);
    forall i | 0 <= i < |line|
      ensures !CommentAt(line, i)
    {
      if 6 <= i < 6 + |bdaddr| {
        assert line[i] == bdaddr[i - 6];
        assert !CommentAt(bdaddr, i - 6);
        if i > 6 {
          assert line[i - 1] == bdaddr[i - 7];
        }
      } else if i < 6 {
        assert line[i] == "psk = "[i];
      } else if i == 6 + |bdaddr| {
        assert line[i] == '=';
      } else {
        assert Free(Hex(key), '#') && Free(Hex(key), ';');
        assert line[i] == Hex(key)[i - 7 - |bdaddr|];
      }
    }
  }

  /** The file that claim writes holds one pair, with the entry as its value. */
  lemma ReadClaimLine(bdaddr: string, key: Key, source: string)
    requires Storable(bdaddr)
    ensures ReadText(ClaimLine(bdaddr, key), source) == [Pair("psk", Entry(bdaddr, key), source)]
  {
    hide Hex, ReadLine, HasComment, CommentAt;
    var v := Entry(bdaddr, key);
    var line := "psk = " + v;
    HexIsPlain(key);
    NoCommentInLine(bdaddr, key);
    assert v[|v| - 1] == Hex(key)[63];
    assert v[0] == (if bdaddr == "" then '=' else bdaddr[0]);
    ReadPskLine(v, source);
    assert Free(line, '\n') by {
      assert Free(Hex(key), '\n') && Free("psk = ", '\n') && Free("=", '\n');
    }
    ReadOneLine(line, source);
  }

  lemma ReadOneLine(line: string, source: string)
    requires Free(line, '\n')
    ensures ReadText(line + "\n", source) == ReadLine(line, source)
  {
    hide ReadLine;
    assert line + "\n" == line + ['\n'] + "";
    SplitHead(line, "", '\n');
    ReadLinesSnoc([line], "", source);
    assert ReadLines([line], source) == ReadLine(line, source) + ReadLines([], source);
    ReadBlank(source);
  }

  lemma ReadBlank(source: string)
    ensures ReadLine("", source) == []
  {
  }

  /** The entry gives the key back for the address in any letter case. */
  lemma EntryGivesKey(bdaddr: string, key: Key, asked: string)
    requires Storable(bdaddr) && EqualIgnoreCase(bdaddr, asked)
    ensures EntryFor(Entry(bdaddr, key), asked) == Some(key)
  {
    hide Hex, Trim, EqualIgnoreCase, IndexOf, HasComment;
    var e, hex := Entry(bdaddr, key), Hex(key);
    HexIsPlain(key);
    IndexOfHead(bdaddr, hex, '=');
    assert e == bdaddr + ['='] + hex;
    assert e[..|bdaddr|] == bdaddr && e[|bdaddr| + 1..] == hex;
    TrimNothing(bdaddr, " ");
    assert hex[0] !in " " && hex[|hex| - 1] !in " ";
    TrimNothing(hex, " ");
    HexRoundTrip(key);
  }

  // ------------------------------------------------------------------
  // Which addresses come back
  // ------------------------------------------------------------------

  /** Letter case leaves everything but letters alone. */
  lemma CaseKeeps(a: string, b: string, i: nat, c: char)
    requires EqualIgnoreCase(a, b) && i < |a| && LowerChar(c) == c && !('a' <= c <= 'z')
    ensures |a| == |b| && (a[i] == c <==> b[i] == c)
  {
    assert Lower(a)[i] == LowerChar(a[i]) && Lower(b)[i] == LowerChar(b[i]);
  }

  lemma CaseKeepsFree(a: string, b: string, c: char)
    requires EqualIgnoreCase(a, b) && LowerChar(c) == c && !('a' <= c <= 'z') && Free(a, c)
    ensures Free(b, c)
  {
    forall i | 0 <= i < |b|
      ensures b[i] != c
    {
      assert |Lower(a)| == |Lower(b)|;
      CaseKeeps(a, b, i, c);
    }
  }

  /** No entry at all gives a key for an address with '=' or with a space at either end. */
  lemma EntryNameLimits(e: string, bdaddr: string)
    requires EntryFor(e, bdaddr).Some?
    ensures Free(bdaddr, '=') && (bdaddr != "" ==> bdaddr[0] != ' ' && bdaddr[|bdaddr| - 1] != ' ')
  {
    hide HexToPsk, Trim, EqualIgnoreCase;
    var n := IndexOf(e, '=').value;
    var name := Trim(e[..n], " ");
    TrimKeeps(e[..n], " ");
    CaseKeepsFree(name, bdaddr, '=');
    if bdaddr != "" {
      SameLength(name, bdaddr);
      CaseKeeps(name, bdaddr, 0, ' ');
      CaseKeeps(name, bdaddr, |name| - 1, ' ');
    }
  }

  lemma SameLength(a: string, b: string)
    requires EqualIgnoreCase(a, b)
    ensures |a| == |b|
  {
    assert |Lower(a)| == |Lower(b)|;
  }

  /** A value that does not start in a blank and holds no line end gives no key to an address that does. */
  lemma ValueLimits(e: string, bdaddr: string)
    requires EntryFor(e, bdaddr).Some? && Free(e, '\n') && (e != "" ==> e[0] !in BLANKS)
    ensures Free(bdaddr, '\n') && (bdaddr != "" ==> bdaddr[0] != '\t')
  {
    hide HexToPsk, Trim, EqualIgnoreCase;
    var n := IndexOf(e, '=').value;
    var name := Trim(e[..n], " ");
    TrimKeeps(e[..n], " ");
    assert Free(e[..n], '\n');
    CaseKeepsFree(name, bdaddr, '\n');
    if bdaddr != "" {
      SameLength(name, bdaddr);
      assert ' ' in BLANKS && '\t' in BLANKS;
      NothingToTrim(e[..n]);
      CaseKeeps(name, bdaddr, 0, '\t');
    }
  }

  lemma NothingToTrim(s: string)
    requires Trim(s, " ") != "" && (s != "" ==> s[0] != ' ')
    ensures s != "" && Trim(s, " ")[0] == s[0]
  {
    TrimRightKeeps(s, " ");
  }

  /** The entries a list of configuration pairs gives to the settings. */
  function PskEntries(pairs: seq<Pair>): seq<string> {
    Values(ConfLayers(pairs), Psk)
  }

  lemma PskKey()
    ensures DescByKey("psk") == Some(Desc(Psk, "--psk", "HCIBRIDGE_PSK", "psk", List))
  {
    hide DESCS;
    PskRow();
    KeyFound(10, 0);
  }

  lemma PskEntriesConcat(a: seq<Pair>, b: seq<Pair>)
    ensures PskEntries(a + b) == PskEntries(a) + PskEntries(b)
  {
    hide ConfLayers, Values;
    ConfLayersConcat(a, b);
    ValuesConcat(ConfLayers(a), ConfLayers(b), Psk);
  }

  lemma PskEntriesOne(p: Pair)
    ensures PskEntries([p]) == [] || PskEntries([p]) == [p.value]
    ensures p.key == "psk" ==> PskEntries([p]) == [p.value]
  {
    hide DescByKey;
    PskKey();
    ConfLayersSnoc([], p);
    if DescByKey(p.key).Some? {
      ValuesOne(Layer(DescByKey(p.key).value.field, p.value), Psk);
    }
  }

  /** Values that come from a file: no line end, no blank at the front. */
  predicate FileValue(v: string) {
    Free(v, '\n') && (v != "" ==> v[0] !in BLANKS)
  }

  lemma ReadLineValue(raw: string, source: string)
    requires Free(raw, '\n')
    ensures ReadLine(raw, source) == [] || (|ReadLine(raw, source)| == 1 && FileValue(ReadLine(raw, source)[0].value))
  {
    hide Trim, IndexOf;
    var visible := StripComment(raw);
    assert Free(visible, '\n');
    var line := Trim(visible, " \t\r");
    TrimKeeps(visible, " \t\r");
    var eq := IndexOf(line, '=');
    if eq.Some? && eq.value < |line| {
      assert Free(line[eq.value + 1..], '\n');
      TrimKeeps(line[eq.value + 1..], BLANKS);
    }
  }

  /** A key that a file gives to an address, it gives through one of its values. */
  lemma {:induction false} LookupThroughValues(lines: seq<string>, source: string, bdaddr: string)
    requires AllFree(lines, '\n')
    ensures Lookup(PskEntries(ReadLines(lines, source)), bdaddr).Some? ==>
      exists e :: FileValue(e) && EntryFor(e, bdaddr).Some?
  {
    hide ReadLine, EntryFor, Lookup, PskEntries;
    NoPairsNoKey(bdaddr);
    if lines != [] {
      var here, later := ReadLine(lines[0], source), ReadLines(lines[1..], source);
      PskEntriesConcat(here, later);
      LookupConcat(PskEntries(here), PskEntries(later), bdaddr);
      LookupThroughValues(lines[1..], source, bdaddr);
      ReadLineValue(lines[0], source);
      if here != [] {
        assert here == [here[0]];
        PskEntriesOne(here[0]);
        LookupOne(here[0].value, bdaddr);
      }
    }
  }

  lemma NoPairsNoKey(bdaddr: string)
    ensures PskEntries([]) == [] && Lookup([], bdaddr).None?
  {
  }

  /** Without a second '=' the line holds no entry. */
  lemma CommentHidesKey(bdaddr: string, key: Key, source: string)
    requires Free(bdaddr, '=') && HasComment(bdaddr)
    ensures var r := ReadLine("psk = " + Entry(bdaddr, key), source);
      r == [] || (|r| == 1 && Free(r[0].value, '='))
  {
    hide Trim, IndexOf, Hex;
    var line := "psk = " + Entry(bdaddr, key);
    var visible := StripComment(line);
    CommentCuts(bdaddr, key);
    var shown := Trim(visible, " \t\r");
    TrimFront(visible, " \t\r");
    var eq := IndexOf(shown, '=');
    if eq.Some? && eq.value < |shown| {
      assert shown[eq.value] == visible[eq.value];
      assert eq.value == 4;
      assert Free(shown[5..], '=');
      TrimKeeps(shown[5..], BLANKS);
    }
  }

  lemma TrimFront(s: string, cut: string)
    requires s != "" && s[0] !in cut
    ensures |Trim(s, cut)| <= |s| && Trim(s, cut) == s[..|Trim(s, cut)|]
  {
    TrimRightKeeps(s, cut);
  }

  /** The line is cut somewhere in the address, so its only '=' is the one after "psk ". */
  lemma CommentCuts(bdaddr: string, key: Key)
    requires Free(bdaddr, '=') && HasComment(bdaddr)
    ensures var visible := StripComment("psk = " + Entry(bdaddr, key));
      && visible != "" && visible[0] == 'p'
      && forall k :: 0 <= k < |visible| && visible[k] == '=' ==> k == 4
  {
    hide Hex;
    var line := "psk = " + Entry(bdaddr, key);
    var visible := StripComment(line);
    var i :| 0 <= i < |bdaddr| && CommentAt(bdaddr, i);
    assert line[6 + i] == bdaddr[i];
    if i > 0 {
      assert line[5 + i] == bdaddr[i - 1];
    } else {
      assert line[5] == ' ';
    }
    assert CommentAt(line, 6 + i);
    assert |visible| <= 6 + i;
    assert line[0] == 'p';
    assert visible != "";
    forall k | 0 <= k < |visible| && k != 4
      ensures visible[k] != '='
    {
      if k < 6 {
        assert line[k] == "psk = "[k];
      } else {
        assert line[k] == bdaddr[k - 6];
      }
    }
  }

  /** What the saved file gives back for the address it was saved under. */
  function SavedAndFound(bdaddr: string, key: Key): Option<Key> {
    Lookup(PskEntries(ReadText(ClaimLine(bdaddr, key), "config")), bdaddr)
  }

  /** A saved key is found again exactly for the addresses that the format can carry. */
  lemma KeyFileIff(bdaddr: string, key: Key)
    ensures SavedAndFound(bdaddr, key) == Some(key) <==> Storable(bdaddr)
  {
    hide Lookup, PskEntries, ReadText, EntryFor, HasComment;
    var pairs := ReadText(ClaimLine(bdaddr, key), "config");
    if Storable(bdaddr) {
      ReadClaimLine(bdaddr, key, "config");
      PskEntriesOne(pairs[0]);
      LookupOne(Entry(bdaddr, key), bdaddr);
      EntryGivesKey(bdaddr, key, bdaddr);
    } else if SavedAndFound(bdaddr, key).Some? {
      FoundIsPlain(bdaddr, key);
      if HasComment(bdaddr) {
        CommentLosesKey(bdaddr, key);
      }
    }
  }

  lemma FoundIsPlain(bdaddr: string, key: Key)
    ensures SavedAndFound(bdaddr, key).Some? ==>
      && Free(bdaddr, '=') && Free(bdaddr, '\n')
      && (bdaddr != "" ==> bdaddr[0] !in BLANKS && bdaddr[|bdaddr| - 1] != ' ')
  {
    hide Lookup, PskEntries, EntryFor, ReadLines;
    var text := ClaimLine(bdaddr, key);
    SplitPieces(text, '\n');
    LookupThroughValues(Split(text, '\n'), "config", bdaddr);
    if SavedAndFound(bdaddr, key).Some? {
      var e :| FileValue(e) && EntryFor(e, bdaddr).Some?;
      EntryNameLimits(e, bdaddr);
      ValueLimits(e, bdaddr);
    }
  }

  lemma CommentLosesKey(bdaddr: string, key: Key)
    requires HasComment(bdaddr) && Free(bdaddr, '=') && Free(bdaddr, '\n')
    ensures SavedAndFound(bdaddr, key).None?
  {
    hide Lookup, PskEntries, HasComment, ReadText, ReadLine, Hex;
    var line := "psk = " + Entry(bdaddr, key);
    HexIsPlain(key);
    assert Free(Hex(key), '\n') && Free("psk = ", '\n') && Free("=", '\n');
    ReadOneLine(line, "config");
    CommentHidesKey(bdaddr, key, "config");
    NoPairsNoKey(bdaddr);
    var r := ReadLine(line, "config");
    if r != [] {
      assert r == [r[0]];
      PskEntriesOne(r[0]);
      LookupOne(r[0].value, bdaddr);
      NoEqualsNoKey(r[0].value, bdaddr);
    }
  }

  lemma NoEqualsNoKey(e: string, bdaddr: string)
    requires Free(e, '=')
    ensures EntryFor(e, bdaddr).None?
  {
  }

  /** A readable command line, and no valid key for the board in the later files, the environment or the flags. */
  predicate NothingLater(later: seq<Pair>, env: map<string, string>, args: seq<string>, asked: string) {
    && FlagLayers(args).Ok?
    && Lookup(PskEntries(later), asked).None?
    && Lookup(Values(EnvLayers(DESCS, env), Psk) + Values(FlagLayers(args).value.layers, Psk), asked).None?
  }

  /** The whole way round: whatever else the configuration, the environment and the command line hold, a saved key comes
      back for its board in any letter case, if nothing later names a valid key for that board. */
  lemma KeyFileRoundTrip(before: seq<Pair>, bdaddr: string, key: Key, source: string, later: seq<Pair>,
                         env: map<string, string>, args: seq<string>, asked: string)
    requires Storable(bdaddr) && EqualIgnoreCase(bdaddr, asked)
    ensures NothingLater(later, env, args, asked) ==>
      var s := Resolved(before + ReadText(ClaimLine(bdaddr, key), source) + later, env, args);
      s.Ok? && Lookup(s.value.psk, asked) == Some(key)
  {
    hide Lookup, ConfLayers, EnvLayers, FlagLayers, ReadText, HasComment, Hex, EqualIgnoreCase, Values, Storable;
    if NothingLater(later, env, args, asked) {
      var line := ReadText(ClaimLine(bdaddr, key), source);
      ReadClaimLine(bdaddr, key, source);
      var e := Entry(bdaddr, key);
      PskEntriesOne(line[0]);
      PskEntriesConcat(before, line);
      PskEntriesConcat(before + line, later);
      var flags := FlagLayers(args).value.layers;
      var conf, fromEnv := ConfLayers(before + line + later), EnvLayers(DESCS, env);
      ValuesConcat(conf, fromEnv, Psk);
      ValuesConcat(conf + fromEnv, flags, Psk);
      LookupOne(e, asked);
      EntryGivesKey(bdaddr, key, asked);
      FoundAmong(PskEntries(before), e, PskEntries(later), Values(fromEnv, Psk) + Values(flags, Psk), asked);
      Assoc(Values(conf, Psk), Values(fromEnv, Psk), Values(flags, Psk));
      NoListFirst(PskEntries(before + line + later) + (Values(fromEnv, Psk) + Values(flags, Psk)));
    }
  }

  lemma NoListFirst(xs: seq<string>)
    ensures [] + xs == xs
  {
  }

  lemma FoundAmong(before: seq<string>, e: string, later: seq<string>, others: seq<string>, asked: string)
    requires Lookup([e], asked).Some? && Lookup(later, asked).None? && Lookup(others, asked).None?
    ensures Lookup(before + [e] + later + others, asked) == Lookup([e], asked)
  {
    hide Lookup;
    LookupConcat(before + [e] + later, others, asked);
    LookupConcat(before + [e], later, asked);
    LookupConcat(before, [e], asked);
  }
}
