/** Pool names out of Move event types: `pkg::pool::PoolCreated<Base, Quote>`. */
module PoolType {
  import opened Text

  // ---- The two scanners, as functions of the text that is left ----

  /** Where the bracket that is already open closes; None when it never does. */
  function Close(s: string, depth: nat): Option<nat> {
    if s == "" then None
    else if s[0] == '>' && depth == 0 then Some(0)
    else
      var rest := Close(s[1..], if s[0] == '<' then depth + 1 else if s[0] == '>' then depth - 1 else depth);
      if rest.None? then None else Some(rest.value + 1)
  }

  function Deeper(c: char, depth: nat): nat {
    if c == '<' then depth + 1 else if c == '>' && depth > 0 then depth - 1 else depth
  }

  /** The pieces between top-level commas; a closing bracket too many is ignored. */
  function Pieces(s: string, depth: nat, piece: string): seq<string> {
    if s == "" then [piece]
    else if s[0] == ',' && depth == 0 then [piece] + Pieces(s[1..], depth, "")
    else Pieces(s[1..], Deeper(s[0], depth), piece + [s[0]])
  }

  /** Pieces stripped, blank ones dropped. */
  function Kept(pieces: seq<string>): seq<string> {
    if pieces == [] then []
    else (if Strip(pieces[0]) == "" then [] else [Strip(pieces[0])]) + Kept(pieces[1..])
  }

  function SplitTopLevel(inner: string): seq<string> {
    Kept(Pieces(inner, 0, ""))
  }

  // ---- As they run ----

  method FindClose(text: string, start: nat) returns (end: Option<nat>)
    requires start <= |text|
    ensures Close(text[start..], 0).None? ==> end.None?
    ensures Close(text[start..], 0).Some? ==> end == Some(start + Close(text[start..], 0).value)
  {
    var depth: nat, j := 0, start;
    while j < |text|
      invariant start <= j <= |text|
      invariant Close(text[start..], 0).None? <==> Close(text[j..], depth).None?
      invariant Close(text[start..], 0).Some? ==>
        start + Close(text[start..], 0).value == j + Close(text[j..], depth).value
    {
      var c := text[j];
      assert text[j..][0] == c && text[j..][1..] == text[j + 1..];
      if c == '<' {
        depth := depth + 1;
      } else if c == '>' {
        if depth == 0 {
          return Some(j);
        }
        depth := depth - 1;
      }
      j := j + 1;
    }
    end := None;
  }

  lemma {:induction false} KeptConcat(a: seq<string>, b: seq<string>)
    ensures Kept(a + b) == Kept(a) + Kept(b)
  {
    hide Strip;
    if a == [] {
      assert a + b == b;
    } else {
      assert (a + b)[1..] == a[1..] + b;
      KeptConcat(a[1..], b);
    }
  }

  lemma {:induction false} KeptNothing()
    ensures Kept([]) == []
  {
  }

  lemma {:induction false} KeptFirst(piece: string, rest: seq<string>)
    ensures Kept([piece] + rest) == Kept([piece]) + Kept(rest)
  {
    KeptConcat([piece], rest);
  }

  lemma {:induction false} NextKept(parts: seq<string>, i: nat)
    requires i < |parts|
    ensures Kept(parts[..i + 1]) == Kept(parts[..i]) + if Strip(parts[i]) == "" then [] else [Strip(parts[i])]
  {
    hide Strip;
    var one: seq<string> := [parts[i]];
    assert parts[..i + 1] == parts[..i] + one && one[1..] == [];
    KeptConcat(parts[..i], one);
  }

  method KeepStripped(parts: seq<string>) returns (types: seq<string>)
    ensures types == Kept(parts)
  {
    types := [];
    KeptNothing();
    hide Strip, Kept;
    for i := 0 to |parts|
      invariant types == Kept(parts[..i])
    {
      NextKept(parts, i);
      var part := Strip(parts[i]);
      if part != "" {
        types := types + [part];
      }
    }
    assert parts[..|parts|] == parts;
  }

  method SplitTopLevelTypes(inner: string) returns (types: seq<string>)
    ensures types == SplitTopLevel(inner)
  {
    hide Strip, Kept;
    var depth: nat, start, i := 0, 0, 0;
    var parts: seq<string> := [];
    KeptNothing();
    while i < |inner|
      invariant 0 <= start <= i <= |inner|
      invariant Kept(parts) + Kept(Pieces(inner[i..], depth, inner[start..i])) == SplitTopLevel(inner)
    {
      var c := inner[i];
      assert inner[i..][0] == c && inner[i..][1..] == inner[i + 1..];
      assert inner[start..i] + [c] == inner[start..i + 1];
      if c == '<' {
        depth := depth + 1;
      } else if c == '>' {
        depth := if depth > 0 then depth - 1 else 0;
      } else if c == ',' && depth == 0 {
        KeptFirst(inner[start..i], Pieces(inner[i + 1..], depth, ""));
        KeptConcat(parts, [inner[start..i]]);
        parts := parts + [inner[start..i]];
        start := i + 1;
        assert inner[start..i + 1] == "";
      }
      i := i + 1;
    }
    KeptConcat(parts, [inner[start..]]);
    assert inner[start..i] == inner[start..];
    parts := parts + [inner[start..]];
    types := KeepStripped(parts);
  }

  /** The text after the last `::`. */
  function LastSegment(s: string, segment: string): string {
    if s == "" then segment
    else if |s| >= 2 && s[0] == ':' && s[1] == ':' then LastSegment(s[2..], "")
    else LastSegment(s[1..], segment + [s[0]])
  }

  /** The index of the last occurrence, or None. */
  function LastIndex(s: string, c: char): (i: Option<nat>)
    ensures i.Some? ==> i.value < |s| && s[i.value] == c && forall j :: i.value < j < |s| ==> s[j] != c
    ensures i.None? ==> forall j :: 0 <= j < |s| ==> s[j] != c
  {
    if s == "" then None else if s[|s| - 1] == c then Some(|s| - 1) else LastIndex(s[..|s| - 1], c)
  }

  /** _type_arg_to_symbol: the last segment, taken inside the innermost bracket if there
      is one. */
  function TypeSymbol(typ: string): string {
    var tp := Strip(typ);
    var open, close := LastIndex(tp, '<'), LastIndex(tp, '>');
    if open.Some? && close.Some? && close.value > open.value + 1 then
      Strip(LastSegment(tp[open.value + 1..close.value], ""))
    else Strip(LastSegment(tp, ""))
  }

  predicate StartsAt(s: string, t: string, i: nat) {
    i + |t| <= |s| && s[i..i + |t|] == t
  }

  /** str.find, from a position on. */
  function Find(s: string, t: string, from: nat): (i: Option<nat>)
    ensures i.Some? ==> from <= i.value && StartsAt(s, t, i.value)
    ensures forall j :: from <= j < (if i.Some? then i.value else |s|) ==> !StartsAt(s, t, j)
    decreases |s| - from
  {
    if from + |t| > |s| then None
    else if StartsAt(s, t, from) then Some(from)
    else Find(s, t, from + 1)
  }

  function Needle(mod: string): string { "::" + Strip(mod) + "::PoolCreated<" }

  /** pool_name_from_pool_created_type. */
  function PoolName(eventType: string, mod: string): Option<string> {
    var pos := Find(Lower(eventType), Lower(Needle(mod)), 0);
    if pos.None? then None
    else
      var start := pos.value + |Needle(mod)|;
      var end := Close(eventType[start..], 0);
      if end.None? || start + end.value > |eventType| then None
      else
        var inner := Strip(eventType[start..start + end.value]);
        var parts := SplitTopLevel(inner);
        if inner == "" || |parts| != 2 then None
        else
          var base, quote := TypeSymbol(parts[0]), TypeSymbol(parts[1]);
          if base == "" || quote == "" then None else Some(Upper(base + "_" + quote))
  }

  lemma {:induction false} CloseInside(s: string, depth: nat)
    ensures Close(s, depth).Some? ==> Close(s, depth).value < |s|
  {
    if s != "" && !(s[0] == '>' && depth == 0) {
      CloseInside(s[1..], if s[0] == '<' then depth + 1 else if s[0] == '>' then depth - 1 else depth);
    }
  }

  lemma {:induction false} EmptyHasNoNeedle(mod: string)
    ensures Find(Lower(""), Lower(Needle(mod)), 0).None?
  {
  }

  method PoolNameFromPoolCreatedType(eventType: string, mod: string) returns (name: Option<string>)
    ensures name == PoolName(eventType, mod)
  {
    hide Strip, TypeSymbol, Lower, Upper, Needle, SplitTopLevel, Close;
    var needle := Needle(mod);
    if eventType == "" {
      EmptyHasNoNeedle(mod);
      return None;
    }
    var pos := Find(Lower(eventType), Lower(needle), 0);
    if pos.None? {
      return None;
    }
    var start := pos.value + |needle|;
    CloseInside(eventType[start..], 0);
    var end := FindClose(eventType, start);
    if end.None? {
      return None;
    }
    var inner := Strip(eventType[start..end.value]);
    if inner == "" {
      return None;
    }
    var parts := SplitTopLevelTypes(inner);
    if |parts| != 2 {
      return None;
    }
    var base, quote := TypeSymbol(parts[0]), TypeSymbol(parts[1]);
    name := if base == "" || quote == "" then None else Some(Upper(base + "_" + quote));
  }

  // ---- Balanced text ----

  /** The depth after a text that never closes more than it has opened. */
  function After(s: string, depth: nat): Option<nat> {
    if s == "" then Some(depth)
    else if s[0] == '>' && depth == 0 then None
    else After(s[1..], Deeper(s[0], depth))
  }

  predicate Balanced(s: string) { After(s, 0) == Some(0) }

  predicate NoTopComma(s: string, depth: nat) {
    s == "" || ((s[0] == ',' ==> depth > 0) && NoTopComma(s[1..], Deeper(s[0], depth)))
  }

  /** The scan for the end of `PoolCreated<…>` passes over balanced text and stops at the
      bracket that matches. */
  lemma {:induction false} CloseMatches(s: string, rest: string, depth: nat)
    requires After(s, depth) == Some(0)
    ensures Close(s + ">" + rest, depth) == Some(|s|)
  {
    if s == "" {
      assert s + ">" + rest == ">" + rest;
    } else {
      assert (s + ">" + rest)[1..] == s[1..] + ">" + rest;
      CloseMatches(s[1..], rest, Deeper(s[0], depth));
    }
  }

  lemma {:induction false} PiecesPass(s: string, rest: string, depth: nat, piece: string)
    requires After(s, depth).Some? && NoTopComma(s, depth)
    ensures Pieces(s + rest, depth, piece) == Pieces(rest, After(s, depth).value, piece + s)
  {
    if s == "" {
      assert s + rest == rest && piece + s == piece;
    } else {
      assert (s + rest)[1..] == s[1..] + rest;
      assert piece + [s[0]] + s[1..] == piece + s;
      PiecesPass(s[1..], rest, Deeper(s[0], depth), piece + [s[0]]);
    }
  }

  function JoinTypes(types: seq<string>): string
    requires types != []
  {
    if |types| == 1 then types[0] else types[0] + "," + JoinTypes(types[1..])
  }

  ghost predicate Types(types: seq<string>) {
    forall i :: 0 <= i < |types| ==> Balanced(types[i]) && NoTopComma(types[i], 0)
  }

  lemma {:induction false} PiecesOfJoin(types: seq<string>)
    requires types != [] && Types(types)
    ensures Pieces(JoinTypes(types), 0, "") == types
  {
    if |types| == 1 {
      assert types[0] + "" == types[0] && "" + types[0] == types[0];
      PiecesPass(types[0], "", 0, "");
    } else {
      var rest := JoinTypes(types[1..]);
      assert types[0] + "," + rest == types[0] + ("," + rest);
      assert "" + types[0] == types[0] && ("," + rest)[1..] == rest;
      PiecesPass(types[0], "," + rest, 0, "");
      PiecesOfJoin(types[1..]);
    }
  }

  function Stripped(types: seq<string>): (r: seq<string>)
    ensures |r| == |types|
  {
    seq(|types|, i requires 0 <= i < |types| => Strip(types[i]))
  }

  lemma {:induction false} KeptAll(types: seq<string>)
    requires forall i :: 0 <= i < |types| ==> Strip(types[i]) != ""
    ensures Kept(types) == Stripped(types)
  {
    hide Strip;
    if types != [] {
      KeptAll(types[1..]);
      assert Stripped(types) == [Strip(types[0])] + Stripped(types[1..]);
    }
  }

  /** Splitting undoes joining: types with balanced brackets, no top-level comma and
      something in them come back, each without the blanks around it. */
  lemma {:induction false} SplitUndoesJoin(types: seq<string>)
    requires types != [] && Types(types) && forall i :: 0 <= i < |types| ==> Strip(types[i]) != ""
    ensures SplitTopLevel(JoinTypes(types)) == Stripped(types)
    ensures (forall i :: 0 <= i < |types| ==> Trimmed(types[i])) ==> SplitTopLevel(JoinTypes(types)) == types
  {
    hide Strip, Kept, Pieces, Balanced, NoTopComma, Trimmed;
    PiecesOfJoin(types);
    KeptAll(types);
    if forall i :: 0 <= i < |types| ==> Trimmed(types[i]) {
      forall i | 0 <= i < |types| ensures Strip(types[i]) == types[i] {
        StripTrimmed(types[i]);
      }
      assert Stripped(types) == types;
    }
  }

  // ---- Type arguments and their symbols ----

  /** One segment of a Move path. */
  predicate Word(s: string) {
    s != "" && Trimmed(s) && forall i :: 0 <= i < |s| ==> s[i] != ':' && s[i] != '<' && s[i] != '>' && s[i] != ','
  }

  predicate Words(segments: seq<string>) {
    segments != [] && forall i :: 0 <= i < |segments| ==> Word(segments[i])
  }

  function Path(segments: seq<string>): string
    requires segments != []
  {
    if |segments| == 1 then segments[0] else segments[0] + "::" + Path(segments[1..])
  }

  function Last(segments: seq<string>): string
    requires segments != []
  {
    segments[|segments| - 1]
  }

  /** A Move type: a path, and type arguments of its own to any depth. */
  datatype TypeArg = TypeArg(path: seq<string>, args: seq<TypeArg>)

  predicate WellFormed(t: TypeArg) {
    Words(t.path) && forall i :: 0 <= i < |t.args| ==> WellFormed(t.args[i])
  }

  /** The text of the first n type arguments. */
  function ArgsText(t: TypeArg, n: nat, pad: string): string
    requires WellFormed(t) && 0 < n <= |t.args|
    decreases t, n
  {
    if n == 1 then TypeText(t.args[0], pad) else ArgsText(t, n - 1, pad) + "," + pad + TypeText(t.args[n - 1], pad)
  }

  /** The text of a type, with the same blanks after every comma. */
  function TypeText(t: TypeArg, pad: string): string
    requires WellFormed(t)
    decreases t, |t.args| + 1
  {
    if t.args == [] then Path(t.path) else Path(t.path) + "<" + ArgsText(t, |t.args|, pad) + ">"
  }

  function LastArg(t: TypeArg): TypeArg
    requires t.args != []
  {
    t.args[|t.args| - 1]
  }

  /** The last type argument is plain, and has several segments or stands alone. */
  predicate Readable(t: TypeArg) {
    t.args == [] || (LastArg(t).args == [] && (|LastArg(t).path| > 1 || |t.args| == 1))
  }

  /** The last segment of a plain type, or of the last argument of a generic one. */
  function Symbol(t: TypeArg): string
    requires WellFormed(t)
  {
    if t.args == [] then Last(t.path)
    else
      var last := t.args[|t.args| - 1];
      assert WellFormed(last);
      Last(last.path)
  }

  predicate Clean(s: string) {
    forall i :: 0 <= i < |s| ==> s[i] != '<' && s[i] != '>' && s[i] != ','
  }

  lemma {:induction false} SegmentPasses(word: string, rest: string, segment: string)
    requires forall i :: 0 <= i < |word| ==> word[i] != ':'
    ensures LastSegment(word + rest, segment) == LastSegment(rest, segment + word)
  {
    if word == "" {
      assert word + rest == rest && segment + word == segment;
    } else {
      assert (word + rest)[1..] == word[1..] + rest;
      assert segment + [word[0]] + word[1..] == segment + word;
      SegmentPasses(word[1..], rest, segment + [word[0]]);
    }
  }

  lemma {:induction false} NothingLeft(segment: string)
    ensures LastSegment("", segment) == segment
  {
  }

  lemma {:induction false} WordAlone(word: string)
    requires forall i :: 0 <= i < |word| ==> word[i] != ':'
    ensures LastSegment(word, "") == word
  {
    SegmentPasses(word, "", "");
    NothingLeft(word);
    hide LastSegment;
    assert word + "" == word && "" + word == word;
  }

  lemma {:induction false} ColonsPass(rest: string, segment: string)
    ensures LastSegment("::" + rest, segment) == LastSegment(rest, "")
  {
    assert ("::" + rest)[2..] == rest;
  }

  lemma {:induction false} FirstSegmentPasses(segments: seq<string>, tail: string)
    requires Words(segments) && |segments| > 1
    ensures LastSegment(Path(segments) + tail, "") == LastSegment(Path(segments[1..]) + tail, "")
  {
    var w, rest := segments[0], Path(segments[1..]) + tail;
    assert Word(w);
    hide LastSegment, Word, Words;
    assert Path(segments) + tail == w + ("::" + rest);
    SegmentPasses(w, "::" + rest, "");
    ColonsPass(rest, "" + w);
  }

  lemma {:induction false} LastSegmentOfPath(segments: seq<string>, tail: string)
    requires Words(segments) && forall i :: 0 <= i < |tail| ==> tail[i] != ':'
    ensures LastSegment(Path(segments) + tail, "") == Last(segments) + tail
  {
    hide LastSegment;
    if |segments| == 1 {
      assert Word(segments[0]);
      WordAlone(segments[0] + tail);
    } else {
      LastSegmentOfPath(segments[1..], tail);
      FirstSegmentPasses(segments, tail);
    }
  }

  lemma {:induction false} PathShape(segments: seq<string>)
    requires Words(segments)
    ensures Path(segments) != "" && Clean(Path(segments)) && Trimmed(Path(segments))
  {
    assert Word(segments[0]);
    if |segments| > 1 {
      PathShape(segments[1..]);
    }
  }

  lemma {:induction false} FlatPasses(s: string, depth: nat)
    requires Clean(s)
    ensures After(s, depth) == Some(depth) && NoTopComma(s, depth)
  {
    if s != "" {
      FlatPasses(s[1..], depth);
    }
  }

  lemma {:induction false} AfterConcat(s: string, t: string, depth: nat)
    requires After(s, depth).Some? && NoTopComma(s, depth) && NoTopComma(t, After(s, depth).value)
    ensures After(s + t, depth) == After(t, After(s, depth).value) && NoTopComma(s + t, depth)
  {
    if s == "" {
      assert s + t == t;
    } else {
      assert (s + t)[1..] == s[1..] + t;
      AfterConcat(s[1..], t, Deeper(s[0], depth));
    }
  }

  /** The same text, read further inside. */
  lemma {:induction false} AfterDeeper(s: string, depth: nat)
    requires After(s, depth).Some? && NoTopComma(s, depth)
    ensures After(s, depth + 1) == Some(After(s, depth).value + 1) && NoTopComma(s, depth + 1)
  {
    if s != "" {
      AfterDeeper(s[1..], Deeper(s[0], depth));
    }
  }

  /** No blanks around it, and neither a colon nor an opening bracket at its end. */
  predicate Ended(s: string) {
    s != "" && Trimmed(s) && s[|s| - 1] != ':' && s[|s| - 1] != '<'
  }

  lemma {:induction false} PathEnded(segments: seq<string>)
    requires Words(segments)
    ensures Ended(Path(segments))
  {
    PathShape(segments);
    if |segments| > 1 {
      PathEnded(segments[1..]);
      var rest := Path(segments[1..]);
      assert Path(segments)[|Path(segments)| - 1] == rest[|rest| - 1];
    } else {
      assert Word(segments[0]);
    }
  }

  lemma {:induction false} InsideBrackets(inside: string)
    requires After(inside, 1) == Some(1) && NoTopComma(inside, 1)
    ensures After("<" + inside + ">", 0) == Some(0) && NoTopComma("<" + inside + ">", 0)
  {
    assert ">"[1..] == "";
    AfterConcat(inside, ">", 1);
    assert ("<" + inside + ">")[1..] == inside + ">";
  }

  lemma {:induction false} EndedBracket(path: string, text: string)
    requires Ended(path) && text != "" && text[0] == path[0] && text[|text| - 1] == '>'
    ensures Ended(text)
  {
  }

  lemma {:induction false} Enclosed(path: string, inside: string)
    requires Ended(path) && Clean(path) && After(inside, 1) == Some(1) && NoTopComma(inside, 1)
    ensures var text := path + "<" + inside + ">";
            Balanced(text) && NoTopComma(text, 0) && Ended(text) && text[|text| - 1] == '>'
  {
    FlatPasses(path, 0);
    InsideBrackets(inside);
    hide After, NoTopComma, Clean, Trimmed;
    AfterConcat(path, "<" + inside + ">", 0);
    var text := path + "<" + inside + ">";
    assert text == path + ("<" + inside + ">");
    assert text[|text| - 1] == '>' && text[0] == path[0];
    hide Ended;
    EndedBracket(path, text);
  }

  lemma {:induction false} Regroup(before: string, pad: string, text: string)
    ensures before + "," + pad + text == before + ("," + (pad + text)) == before + ("," + pad) + text
  {
  }

  lemma {:induction false} BlankIsClean(pad: string)
    requires Blank(pad)
    ensures Clean(pad)
  {
  }

  lemma {:induction false} CommaInside(s: string)
    requires After(s, 1) == Some(1) && NoTopComma(s, 1)
    ensures After("," + s, 1) == Some(1) && NoTopComma("," + s, 1)
  {
    assert ("," + s)[1..] == s;
  }

  lemma {:induction false} EndedAppend(before: string, gap: string, text: string)
    requires Ended(before) && Ended(text)
    ensures Ended(before + gap + text)
  {
    var all := before + gap + text;
    assert all[0] == before[0] && all[|all| - 1] == text[|text| - 1];
  }

  lemma {:induction false} Appended(before: string, pad: string, text: string)
    requires After(before, 1) == Some(1) && NoTopComma(before, 1) && Ended(before) && Blank(pad)
    requires After(text, 1) == Some(1) && NoTopComma(text, 1) && Ended(text)
    ensures var all := before + "," + pad + text; After(all, 1) == Some(1) && NoTopComma(all, 1) && Ended(all)
  {
    BlankIsClean(pad);
    FlatPasses(pad, 1);
    hide After, NoTopComma, Blank, Clean, Trimmed, Ended;
    AfterConcat(pad, text, 1);
    CommaInside(pad + text);
    AfterConcat(before, "," + (pad + text), 1);
    EndedAppend(before, "," + pad, text);
    Regroup(before, pad, text);
  }

  lemma {:induction false} ArgsTextShape(t: TypeArg, n: nat, pad: string)
    requires WellFormed(t) && 0 < n <= |t.args| && Blank(pad)
    ensures var text := ArgsText(t, n, pad); After(text, 1) == Some(1) && NoTopComma(text, 1) && Ended(text)
    decreases t, n
  {
    TypeTextShape(t.args[n - 1], pad);
    AfterDeeper(TypeText(t.args[n - 1], pad), 0);
    if n > 1 {
      ArgsTextShape(t, n - 1, pad);
      Appended(ArgsText(t, n - 1, pad), pad, TypeText(t.args[n - 1], pad));
    }
    hide After, NoTopComma, Ended;
  }

  lemma {:induction false} TypeTextShape(t: TypeArg, pad: string)
    requires WellFormed(t) && Blank(pad)
    ensures var text := TypeText(t, pad);
            Balanced(text) && NoTopComma(text, 0) && Ended(text) && (t.args != [] ==> text[|text| - 1] == '>')
    decreases t, |t.args| + 1
  {
    PathShape(t.path);
    PathEnded(t.path);
    if t.args == [] {
      FlatPasses(Path(t.path), 0);
    } else {
      ArgsTextShape(t, |t.args|, pad);
      Enclosed(Path(t.path), ArgsText(t, |t.args|, pad));
    }
    hide Path, After, NoTopComma, Ended;
  }

  lemma {:induction false} LastIndexAt(s: string, c: char, t: string)
    requires forall i :: 0 <= i < |t| ==> t[i] != c
    ensures LastIndex(s + [c] + t, c) == Some(|s|)
  {
    var whole := s + [c] + t;
    assert whole[|s|] == c;
    assert forall j :: |s| < j < |whole| ==> whole[j] == t[j - |s| - 1];
  }

  lemma {:induction false} LastIndexNone(s: string, c: char)
    requires forall i :: 0 <= i < |s| ==> s[i] != c
    ensures LastIndex(s, c).None?
  {
  }

  lemma {:induction false} SymbolInBrackets(before: string, inside: string)
    requires (forall i :: 0 <= i < |inside| ==> inside[i] != '<') && inside != ""
    requires Trimmed(before + "<" + inside + ">")
    ensures TypeSymbol(before + "<" + inside + ">") == Strip(LastSegment(inside, ""))
  {
    hide LastSegment, LastIndex, Strip, Trimmed;
    var tp := before + "<" + inside + ">";
    StripTrimmed(tp);
    LastIndexAt(before, '<', inside + ">");
    assert tp == before + ['<'] + (inside + ">");
    LastIndexAt(before + "<" + inside, '>', "");
    assert tp == before + "<" + inside + ['>'] + "";
    assert tp[|before| + 1..|tp| - 1] == inside;
  }

  lemma {:induction false} WordTrimmed(w: string)
    requires Word(w)
    ensures Strip(w) == w
  {
    StripTrimmed(w);
  }

  lemma {:induction false} PathEndsIn(segments: seq<string>)
    requires Words(segments)
    ensures Strip(LastSegment(Path(segments), "")) == Last(segments)
  {
    hide Strip, LastSegment, Path;
    LastSegmentOfPath(segments, "");
    assert Path(segments) + "" == Path(segments) && Last(segments) + "" == Last(segments);
    WordTrimmed(Last(segments));
  }

  lemma {:induction false} SymbolOfPath(path: seq<string>)
    requires Words(path)
    ensures TypeSymbol(Path(path)) == Last(path)
  {
    hide Path, LastSegment, LastIndex, Strip, Word;
    PathShape(path);
    StripTrimmed(Path(path));
    LastIndexNone(Path(path), '<');
    PathEndsIn(path);
  }

  /** The text after the last opening bracket, or all of it. */
  function AfterOpen(s: string): string {
    var open := LastIndex(s, '<');
    if open.Some? then s[open.value + 1..] else s
  }

  lemma {:induction false} AfterOpenConcat(s: string, t: string)
    requires forall i :: 0 <= i < |t| ==> t[i] != '<'
    ensures AfterOpen(s + t) == AfterOpen(s) + t
  {
    var open := LastIndex(s, '<');
    var whole := s + t;
    if open.Some? {
      var k := open.value;
      var tail := s[k + 1..] + t;
      assert whole == s[..k] + ['<'] + tail;
      LastIndexAt(s[..k], '<', tail);
    } else {
      LastIndexNone(whole, '<');
    }
  }

  lemma {:induction false} AfterOpenEnds(s: string)
    requires s != "" && s[|s| - 1] != '<'
    ensures AfterOpen(s) != "" && AfterOpen(s)[|AfterOpen(s)| - 1] == s[|s| - 1]
    ensures forall i :: 0 <= i < |AfterOpen(s)| ==> AfterOpen(s)[i] != '<'
  {
  }

  /** The symbol is read from behind the last opening bracket. */
  lemma {:induction false} SymbolAfterOpen(before: string, inside: string)
    requires Trimmed(before + "<" + inside + ">") && inside != "" && inside[|inside| - 1] != '<'
    ensures TypeSymbol(before + "<" + inside + ">") == Strip(LastSegment(AfterOpen(inside), ""))
  {
    hide TypeSymbol, LastSegment, Strip, Trimmed;
    AfterOpenEnds(inside);
    var open := LastIndex(inside, '<');
    if open.Some? {
      var k := open.value;
      assert inside == inside[..k] + "<" + inside[k + 1..];
      assert before + "<" + inside + ">" == (before + "<" + inside[..k]) + "<" + inside[k + 1..] + ">";
      SymbolInBrackets(before + "<" + inside[..k], inside[k + 1..]);
    } else {
      SymbolInBrackets(before, inside);
    }
  }

  lemma {:induction false} LastSegmentConcat(s: string, t: string, segment: string)
    requires s == "" || s[|s| - 1] != ':'
    ensures LastSegment(s + t, segment) == LastSegment(t, LastSegment(s, segment))
  {
    if s == "" {
      assert s + t == t;
    } else if |s| >= 2 && s[0] == ':' && s[1] == ':' {
      assert (s + t)[2..] == s[2..] + t;
      LastSegmentConcat(s[2..], t, "");
    } else {
      assert (s + t)[1..] == s[1..] + t;
      LastSegmentConcat(s[1..], t, segment + [s[0]]);
    }
  }

  lemma {:induction false} LastSegmentEnds(s: string, segment: string)
    requires s != "" && s[|s| - 1] != ':'
    ensures var r := LastSegment(s, segment); r != "" && r[|r| - 1] == s[|s| - 1]
  {
    if |s| == 1 {
    } else if s[0] == ':' && s[1] == ':' {
      LastSegmentEnds(s[2..], "");
    } else {
      LastSegmentEnds(s[1..], segment + [s[0]]);
    }
  }

  /** A path of several segments ends in its last, whatever stands before it. */
  lemma {:induction false} LongPathEndsIn(path: seq<string>, segment: string)
    requires Words(path) && |path| > 1
    ensures LastSegment(Path(path), segment) == Last(path)
  {
    hide LastSegment;
    var w, rest := path[0], Path(path[1..]);
    assert Word(w);
    assert Path(path) == w + ("::" + rest);
    SegmentPasses(w, "::" + rest, segment);
    ColonsPass(rest, segment + w);
    assert rest + "" == rest;
    LastSegmentOfPath(path[1..], "");
    assert Last(path) + "" == Last(path);
  }

  lemma {:induction false} StripKeeps(s: string, i: nat)
    requires i < |s| && !IsSpace(s[i])
    ensures exists j :: 0 <= j < |Strip(s)| && Strip(s)[j] == s[i]
  {
    hide StripLeft, StripRight, IsSpace;
    var l := StripLeft(s);
    var r := StripRight(l);
    assert Strip(s) == r;
    var k := i - (|s| - |l|);
    assert k >= 0 && l[k] == s[i];
    assert k < |r| && r[k] == l[k];
    assert Strip(s)[k] == s[i];
  }

  lemma {:induction false} NotClean(s: string, i: nat)
    requires i < |s| && (s[i] == '>' || s[i] == ',')
    ensures !Clean(Strip(s)) && Strip(s) != ""
  {
    hide Strip;
    StripKeeps(s, i);
  }

  /** A generic last argument leaves its closing bracket in the symbol. */
  lemma {:induction false} GenericEndIsNotClean(inside: string)
    requires inside != "" && inside[|inside| - 1] == '>'
    ensures !Clean(Strip(LastSegment(AfterOpen(inside), "")))
  {
    hide LastSegment, AfterOpen, Strip;
    AfterOpenEnds(inside);
    var q := AfterOpen(inside);
    LastSegmentEnds(q, "");
    var r := LastSegment(q, "");
    NotClean(r, |r| - 1);
  }

  /** Behind another argument, a path of one segment keeps the comma before it. */
  lemma {:induction false} SingleSegmentKeepsComma(before: string, pad: string, word: string)
    requires Ended(before) && Blank(pad) && Word(word)
    ensures !Clean(Strip(LastSegment(AfterOpen(before + "," + pad + word), "")))
  {
    hide LastSegment, Strip, AfterOpen;
    var tail := "," + pad + word;
    assert before + "," + pad + word == before + tail;
    AfterOpenConcat(before, tail);
    AfterOpenEnds(before);
    var q := AfterOpen(before);
    LastSegmentConcat(q, tail, "");
    SegmentPasses(tail, "", LastSegment(q, ""));
    assert tail + "" == tail;
    NothingLeft(LastSegment(q, "") + tail);
    NotClean(LastSegment(q, "") + tail, |LastSegment(q, "")|);
  }

  /** Behind another argument, a path of several segments is read alone. */
  lemma {:induction false} LongPathIsRead(before: string, pad: string, path: seq<string>)
    requires Ended(before) && Blank(pad) && Words(path) && |path| > 1
    ensures Strip(LastSegment(AfterOpen(before + "," + pad + Path(path)), "")) == Last(path)
  {
    hide LastSegment, Strip, AfterOpen, Path;
    var gap := "," + pad;
    PathShape(path);
    assert before + "," + pad + Path(path) == before + (gap + Path(path));
    AfterOpenConcat(before, gap + Path(path));
    var q := AfterOpen(before);
    assert q + (gap + Path(path)) == (q + gap) + Path(path);
    assert (q + gap)[|q + gap| - 1] == gap[|gap| - 1];
    LastSegmentConcat(q + gap, Path(path), "");
    LongPathEndsIn(path, LastSegment(q + gap, ""));
    WordTrimmed(Last(path));
  }

  lemma {:induction false} SymbolNotEmpty(s: string)
    ensures !Clean(s) ==> s != ""
  {
  }

  lemma {:induction false} OneSegment(path: seq<string>)
    requires Words(path) && |path| == 1
    ensures Path(path) == Last(path) && Word(Last(path))
  {
  }

  lemma {:induction false} WordsAreClean(w: string)
    ensures Word(w) ==> Clean(w) && w != ""
  {
  }

  lemma {:induction false} PlainIsWhole(s: string)
    requires Clean(s)
    ensures AfterOpen(s) == s
  {
    LastIndexNone(s, '<');
  }

  /** The symbol of any type at all is free of brackets and commas exactly when its last
      argument is plain and has several segments or stands alone; then it is that
      argument's last segment. */
  lemma {:induction false} SymbolOfType(t: TypeArg, pad: string)
    requires WellFormed(t) && Blank(pad)
    ensures var symbol := TypeSymbol(TypeText(t, pad));
            symbol != "" && (Clean(symbol) <==> Readable(t)) && (Readable(t) ==> symbol == Symbol(t))
  {
    hide TypeSymbol, LastSegment, Strip, Path, Word, Trimmed, AfterOpen, Balanced, NoTopComma, After;
    TypeTextShape(t, pad);
    assert Words(t.path) && Word(Last(t.path));
    if t.args == [] {
      SymbolOfPath(t.path);
      WordsAreClean(Last(t.path));
    } else {
      var last, n := LastArg(t), |t.args|;
      var inside := ArgsText(t, n, pad);
      assert WellFormed(last) && Words(last.path);
      ArgsTextShape(t, n, pad);
      SymbolAfterOpen(Path(t.path), inside);
      TypeTextShape(last, pad);
      if last.args != [] {
        var text := TypeText(last, pad);
        assert inside[|inside| - 1] == text[|text| - 1] == '>';
        GenericEndIsNotClean(inside);
      } else if n == 1 {
        PathShape(last.path);
        PlainIsWhole(Path(last.path));
        PathEndsIn(last.path);
        WordsAreClean(Last(last.path));
      } else {
        ArgsTextShape(t, n - 1, pad);
        if |last.path| > 1 {
          LongPathIsRead(ArgsText(t, n - 1, pad), pad, last.path);
          WordsAreClean(Last(last.path));
        } else {
          OneSegment(last.path);
          SingleSegmentKeepsComma(ArgsText(t, n - 1, pad), pad, Last(last.path));
        }
      }
    }
    SymbolNotEmpty(TypeSymbol(TypeText(t, pad)));
  }

  lemma {:induction false} BracketedWord(w: string)
    requires Word(w)
    ensures Strip(w + ">") == w + ">"
  {
    assert (w + ">")[0] == w[0];
    StripTrimmed(w + ">");
  }

  /** In a nest of single arguments the symbol of the innermost keeps a bracket. */
  lemma {:induction false} NestedSymbolKeepsABracket(outer: seq<string>, middle: seq<string>, inner: seq<string>)
    requires Words(outer) && Words(middle) && Words(inner)
    ensures TypeSymbol(Path(outer) + "<" + Path(middle) + "<" + Path(inner) + ">>") == Last(inner) + ">"
  {
    hide TypeSymbol, LastSegment, Strip, Path, Word;
    var before, inside := Path(outer) + "<" + Path(middle), Path(inner) + ">";
    var tp := before + "<" + inside + ">";
    PathShape(outer);
    PathShape(inner);
    assert tp == Path(outer) + "<" + Path(middle) + "<" + Path(inner) + ">>";
    assert tp[0] == Path(outer)[0];
    SymbolInBrackets(before, inside);
    LastSegmentOfPath(inner, ">");
    BracketedWord(Last(inner));
  }

  lemma {:induction false} StripEnds(s: string)
    requires s != "" && !IsSpace(s[|s| - 1])
    ensures Strip(s) != "" && Strip(s)[|Strip(s)| - 1] == s[|s| - 1]
  {
    hide StripLeft, StripRight, IsSpace;
    var l := StripLeft(s);
    assert l[|l| - 1] == s[|s| - 1];
    assert |StripRight(l)| == |l|;
  }

  /** A generic last argument always leaves the symbol ending in a bracket. */
  lemma {:induction false} GenericEndKeepsABracket(t: TypeArg, pad: string)
    requires WellFormed(t) && Blank(pad) && t.args != [] && LastArg(t).args != []
    ensures var symbol := TypeSymbol(TypeText(t, pad)); symbol != "" && symbol[|symbol| - 1] == '>'
  {
    hide TypeSymbol, LastSegment, Strip, Path, Word, Trimmed, AfterOpen, Balanced, NoTopComma, After;
    var inside, text := ArgsText(t, |t.args|, pad), TypeText(LastArg(t), pad);
    TypeTextShape(t, pad);
    ArgsTextShape(t, |t.args|, pad);
    SymbolAfterOpen(Path(t.path), inside);
    TypeTextShape(LastArg(t), pad);
    assert inside[|inside| - 1] == text[|text| - 1] == '>';
    AfterOpenEnds(inside);
    LastSegmentEnds(AfterOpen(inside), "");
    StripEnds(LastSegment(AfterOpen(inside), ""));
  }

  /** Somewhere two colons stand side by side. */
  ghost predicate HasSeparator(s: string) {
    exists i :: 0 <= i < |s| - 1 && s[i] == ':' && s[i + 1] == ':'
  }

  lemma {:induction false} NoSeparator(s: string, segment: string)
    requires !HasSeparator(s)
    ensures LastSegment(s, segment) == segment + s
  {
    if s != "" {
      assert forall i :: 0 <= i < |s[1..]| ==> s[1..][i] == s[i + 1];
      assert |s| >= 2 ==> !(s[0] == ':' && s[0 + 1] == ':');
      NoSeparator(s[1..], segment + [s[0]]);
      assert segment + [s[0]] + s[1..] == segment + s;
    }
  }

  /** What stands between the last opening and the last closing bracket, if anything does, and
      else the whole text. */
  function InnerText(tp: string): string {
    var (open, close) := (LastIndex(tp, '<'), LastIndex(tp, '>'));
    if open.Some? && close.Some? && close.value >= open.value + 2 then tp[open.value + 1..close.value] else tp
  }

  /** The symbol of any text is the last segment of its inner text. */
  lemma {:induction false} SymbolOfText(typ: string)
    ensures TypeSymbol(typ) == Strip(LastSegment(InnerText(Strip(typ)), ""))
    ensures !HasSeparator(InnerText(Strip(typ))) ==> TypeSymbol(typ) == Strip(InnerText(Strip(typ)))
  {
    hide Strip, LastIndex, LastSegment, HasSeparator;
    if !HasSeparator(InnerText(Strip(typ))) {
      NoSeparator(InnerText(Strip(typ)), "");
      assert "" + InnerText(Strip(typ)) == InnerText(Strip(typ));
    }
  }

  // ---- The whole name ----

  lemma {:induction false} FirstCharacter(s: string, t: string, i: nat)
    requires t != "" && i < |s|
    ensures StartsAt(s, t, i) ==> s[i] == t[0]
  {
    if StartsAt(s, t, i) {
      assert s[i..i + |t|][0] == s[i];
    }
  }

  lemma {:induction false} FindNeedle(pkg: string, needle: string, rest: string)
    requires (forall i :: 0 <= i < |pkg| ==> pkg[i] != ':') && needle != "" && needle[0] == ':'
    ensures Find(Lower(pkg + needle + rest), Lower(needle), 0) == Some(|pkg|)
  {
    var text, n := Lower(pkg + needle + rest), Lower(needle);
    assert text[|pkg|..|pkg| + |n|] == n;
    assert StartsAt(text, n, |pkg|);
    forall j | 0 <= j < |pkg| ensures !StartsAt(text, n, j) {
      assert text[j] == LowerChar(pkg[j]) != ':';
      FirstCharacter(text, n, j);
    }
  }

  lemma {:induction false} NeedleShape(mod: string)
    ensures Needle(mod) != "" && Needle(mod)[0] == ':'
  {
    hide Strip;
  }

  lemma {:induction false} NeedleColon(needle: string, mod: string)
    requires Lower(needle) == Lower(Needle(mod))
    ensures needle != "" && needle[0] == ':' && |needle| == |Needle(mod)|
  {
    NeedleShape(mod);
    hide Needle;
    assert Lower(needle)[0] == LowerChar(needle[0]) && Lower(Needle(mod))[0] == LowerChar(Needle(mod)[0]);
  }

  lemma {:induction false} UpperKeepsMarks(c: char)
    ensures UpperChar(c) == '<' <==> c == '<'
    ensures UpperChar(c) == '>' <==> c == '>'
    ensures UpperChar(c) == ',' <==> c == ','
  {
  }

  lemma {:induction false} CleanUpper(s: string)
    ensures Clean(Upper(s)) <==> Clean(s)
  {
    hide UpperChar;
    forall i | 0 <= i < |s|
      ensures (Upper(s)[i] == '<' <==> s[i] == '<') && (Upper(s)[i] == '>' <==> s[i] == '>') && (Upper(s)[i] == ',' <==> s[i] == ',')
    {
      UpperKeepsMarks(s[i]);
    }
  }

  lemma {:induction false} CleanParts(s: string, t: string)
    ensures Clean(s + t) <==> Clean(s) && Clean(t)
  {
    assert forall i :: 0 <= i < |s| ==> (s + t)[i] == s[i];
    assert forall i :: 0 <= i < |t| ==> (s + t)[|s| + i] == t[i];
    assert forall i :: |s| <= i < |s + t| ==> (s + t)[i] == t[i - |s|];
  }

  lemma {:induction false} CleanUnderscore()
    ensures Clean("_")
  {
  }

  lemma {:induction false} CleanName(base: string, quote: string)
    ensures Clean(Upper(base + "_" + quote)) <==> Clean(base) && Clean(quote)
  {
    hide Clean, Upper;
    CleanUpper(base + "_" + quote);
    CleanParts(base + "_", quote);
    CleanParts(base, "_");
    CleanUnderscore();
  }

  lemma {:induction false} PaddedType(t: TypeArg, pad: string)
    requires WellFormed(t) && Blank(pad)
    ensures var q := pad + TypeText(t, pad); Balanced(q) && NoTopComma(q, 0) && Strip(q) == TypeText(t, pad)
  {
    hide TypeText, Strip;
    TypeTextShape(t, pad);
    assert Clean(pad);
    FlatPasses(pad, 0);
    AfterConcat(pad, TypeText(t, pad), 0);
    assert pad + TypeText(t, pad) + "" == pad + TypeText(t, pad);
    StripPadding(pad, TypeText(t, pad), "");
  }

  lemma {:induction false} BalancedConcat(s: string, t: string, depth: nat)
    requires After(s, depth).Some?
    ensures After(s + t, depth) == After(t, After(s, depth).value)
  {
    if s == "" {
      assert s + t == t;
    } else {
      assert (s + t)[1..] == s[1..] + t;
      BalancedConcat(s[1..], t, Deeper(s[0], depth));
    }
  }

  lemma {:induction false} CommaBetween(b: string, q: string)
    requires Balanced(b) && Balanced(q)
    ensures After(b + "," + q, 0) == Some(0)
  {
    assert b + "," + q == b + ("," + q);
    assert ("," + q)[1..] == q;
    BalancedConcat(b, "," + q, 0);
  }

  lemma {:induction false} PaddedTypes(base: TypeArg, quote: TypeArg, pad: string)
    requires WellFormed(base) && WellFormed(quote) && Blank(pad)
    ensures var inner := TypeText(base, pad) + "," + (pad + TypeText(quote, pad));
            && After(inner, 0) == Some(0) && Strip(inner) == inner != ""
            && SplitTopLevel(inner) == [TypeText(base, pad), TypeText(quote, pad)]
  {
    hide TypeText, Strip, Kept, Pieces, After, NoTopComma, SplitTopLevel, WellFormed;
    var b, t := TypeText(base, pad), TypeText(quote, pad);
    var q := pad + t;
    var types, inner := [b, q], b + "," + q;
    TypeTextShape(base, pad);
    TypeTextShape(quote, pad);
    StripTrimmed(b);
    PaddedType(quote, pad);
    SplitUndoesJoin(types);
    assert types[1..] == [q];
    assert JoinTypes(types) == inner;
    assert Stripped(types) == [b, t];
    CommaBetween(b, q);
    assert inner[0] == b[0] && inner[|inner| - 1] == t[|t| - 1];
    StripTrimmed(inner);
  }

  /** The event type of a pool, for any base and quote types, any package id without
      colons, the needle in any case, blanks after commas, and whatever follows the type:
      it is named by their two symbols.  The name is free of brackets and commas, and so is
      BASE_QUOTE, exactly when both types are readable. */
  lemma {:induction false} PoolNameOfType(pkg: string, needle: string, mod: string, base: TypeArg, quote: TypeArg,
                                          pad: string, tail: string)
    requires forall i :: 0 <= i < |pkg| ==> pkg[i] != ':'
    requires Lower(needle) == Lower("::" + Strip(mod) + "::PoolCreated<")
    requires WellFormed(base) && WellFormed(quote) && Blank(pad)
    ensures var name := PoolName(pkg + needle + TypeText(base, pad) + "," + pad + TypeText(quote, pad) + ">" + tail, mod);
            && name == Some(Upper(TypeSymbol(TypeText(base, pad)) + "_" + TypeSymbol(TypeText(quote, pad))))
            && (Clean(name.value) <==> Readable(base) && Readable(quote))
            && (Clean(name.value) ==> name == Some(Upper(Symbol(base) + "_" + Symbol(quote))))
  {
    hide TypeText, TypeSymbol, Strip, Upper, Find, Close, Symbol, Kept, Pieces, Balanced, NoTopComma, Readable, Clean;
    var b, q := TypeText(base, pad), pad + TypeText(quote, pad);
    var inner := b + "," + q;
    var event := pkg + needle + (inner + ">" + tail);
    assert event == pkg + needle + TypeText(base, pad) + "," + pad + TypeText(quote, pad) + ">" + tail;
    NeedleColon(needle, mod);
    FindNeedle(pkg, needle, inner + ">" + tail);
    assert event[|pkg| + |Needle(mod)|..] == inner + ">" + tail;
    PaddedTypes(base, quote, pad);
    CloseMatches(inner, tail, 0);
    assert (inner + ">" + tail)[..|inner|] == inner;
    assert event[|pkg| + |Needle(mod)|..|pkg| + |Needle(mod)| + |inner|] == inner;
    SymbolOfType(base, pad);
    SymbolOfType(quote, pad);
    CleanName(TypeSymbol(TypeText(base, pad)), TypeSymbol(TypeText(quote, pad)));
  }

  // ---- Which texts have a name ----

  /** The bracket that is open closes at the first place behind balanced text. */
  lemma {:induction false} CloseExactlyWhen(s: string, depth: nat, k: nat)
    ensures Close(s, depth) == Some(k) <==> k < |s| && s[k] == '>' && After(s[..k], depth) == Some(0)
  {
    if s == "" {
    } else if s[0] == '>' && depth == 0 {
      if 0 < k < |s| {
        assert s[..k][0] == '>';
      }
      assert s[..0] == "";
    } else if k == 0 {
      assert s[..0] == "";
    } else {
      if k < |s| {
        assert s[..k][0] == s[0] && s[..k][1..] == s[1..][..k - 1];
      }
      CloseExactlyWhen(s[1..], Deeper(s[0], depth), k - 1);
    }
  }

  /** The pieces between top-level commas, joined again, are the text. */
  lemma {:induction false} JoinUndoesSplit(s: string, depth: nat, piece: string)
    ensures Pieces(s, depth, piece) != [] && JoinTypes(Pieces(s, depth, piece)) == piece + s
  {
    if s == "" {
      assert piece + s == piece;
    } else if s[0] == ',' && depth == 0 {
      JoinUndoesSplit(s[1..], depth, "");
      var rest := Pieces(s[1..], depth, "");
      assert ([piece] + rest)[1..] == rest && "" + s[1..] == s[1..];
      assert piece + "," + s[1..] == piece + s;
    } else {
      JoinUndoesSplit(s[1..], Deeper(s[0], depth), piece + [s[0]]);
      assert piece + [s[0]] + s[1..] == piece + s;
    }
  }

  /** The needle first occurs at i, in any case, and the bracket it opens closes at k; in
      between stand two arguments that both have a symbol. */
  predicate NamesPool(eventType: string, mod: string, i: nat, k: nat) {
    var start := i + |Needle(mod)|;
    && StartsAt(Lower(eventType), Lower(Needle(mod)), i)
    && (forall j :: 0 <= j < i ==> !StartsAt(Lower(eventType), Lower(Needle(mod)), j))
    && start <= k < |eventType| && eventType[k] == '>' && Balanced(eventType[start..k])
    && Strip(eventType[start..k]) != ""
    && var parts := SplitTopLevel(Strip(eventType[start..k]));
       |parts| == 2 && TypeSymbol(parts[0]) != "" && TypeSymbol(parts[1]) != ""
  }

  lemma {:induction false} StartsInside(text: string, needle: string, i: nat)
    ensures StartsAt(text, needle, i) && needle != "" ==> i < |text|
    ensures StartsAt(text, needle, i) ==> i <= |text|
  {
  }

  lemma {:induction false} FirstNeedle(text: string, needle: string, i: nat)
    requires needle != ""
    ensures Find(text, needle, 0) == Some(i)
       <==> i <= |text| && StartsAt(text, needle, i) && forall j :: 0 <= j < i ==> !StartsAt(text, needle, j)
  {
    hide StartsAt;
    hide Find;
    var found := Find(text, needle, 0);
    if found.Some? {
      StartsInside(text, needle, found.value);
    }
    StartsInside(text, needle, i);
  }

  lemma {:induction false} PoolAt(eventType: string, mod: string, i: nat, k: nat)
    requires NamesPool(eventType, mod, i, k)
    ensures var parts := SplitTopLevel(Strip(eventType[i + |Needle(mod)|..k]));
            PoolName(eventType, mod) == Some(Upper(TypeSymbol(parts[0]) + "_" + TypeSymbol(parts[1])))
  {
    hide StartsAt, Strip, SplitTopLevel, TypeSymbol, Upper, Lower, Needle, Find, Close, After;
    var start := i + |Needle(mod)|;
    NeedleShape(mod);
    StartsInside(Lower(eventType), Lower(Needle(mod)), i);
    FirstNeedle(Lower(eventType), Lower(Needle(mod)), i);
    var rest := eventType[start..];
    assert rest[..k - start] == eventType[start..k] && rest[k - start] == '>';
    CloseExactlyWhen(rest, 0, k - start);
  }

  lemma {:induction false} PoolHasPlace(eventType: string, mod: string)
    requires PoolName(eventType, mod).Some?
    ensures exists i: nat, k: nat :: NamesPool(eventType, mod, i, k)
  {
    hide StartsAt, Strip, SplitTopLevel, TypeSymbol, Upper, Lower, Needle, Find, Close, After;
    NeedleShape(mod);
    var i := Find(Lower(eventType), Lower(Needle(mod)), 0).value;
    var start := i + |Needle(mod)|;
    FirstNeedle(Lower(eventType), Lower(Needle(mod)), i);
    var rest := eventType[start..];
    var k := start + Close(rest, 0).value;
    CloseExactlyWhen(rest, 0, k - start);
    assert rest[..k - start] == eventType[start..k] && rest[k - start] == eventType[k];
    assert NamesPool(eventType, mod, i, k);
  }

  /** Any text at all, well-formed or not, has a name exactly when the needle occurs in it,
      the bracket closes, and two arguments with symbols stand between; the name is theirs. */
  lemma {:induction false} NamedExactlyWhen(eventType: string, mod: string)
    ensures PoolName(eventType, mod).Some? <==> exists i: nat, k: nat :: NamesPool(eventType, mod, i, k)
    ensures forall i: nat, k: nat :: NamesPool(eventType, mod, i, k) ==>
              var parts := SplitTopLevel(Strip(eventType[i + |Needle(mod)|..k]));
              PoolName(eventType, mod) == Some(Upper(TypeSymbol(parts[0]) + "_" + TypeSymbol(parts[1])))
  {
    forall i: nat, k: nat | NamesPool(eventType, mod, i, k)
      ensures var parts := SplitTopLevel(Strip(eventType[i + |Needle(mod)|..k]));
              PoolName(eventType, mod) == Some(Upper(TypeSymbol(parts[0]) + "_" + TypeSymbol(parts[1])))
    {
      PoolAt(eventType, mod, i, k);
    }
    if PoolName(eventType, mod).Some? {
      PoolHasPlace(eventType, mod);
    }
    hide NamesPool, PoolName;
  }
}
