/** Rewriting the dependency specs of one package.json text (scripts/bump-expo.ts).

    The script works on character offsets. The laws are stated on the pieces between
    double quotes: a declaration `"name": "spec"` is a piece `name`, a piece `: ` and the
    value piece after them. */
module ManifestBump {
  import opened Text

  datatype Row = Row(name: string, expected: string)

  const QUOTE: string := "\""
  const COLON: string := ": "

  function Needle(name: string): string {
    QUOTE + name + QUOTE + COLON + QUOTE
  }

  // ------------------------------------------------------------------ the code

  function PlanExpoBump(manifest: string, drifted: seq<Row>): seq<Row> {
    if drifted == [] then []
    else
      var rest := PlanExpoBump(manifest, drifted[1..]);
      if Index(manifest, Needle(drifted[0].name)) != -1 then [drifted[0]] + rest else rest
  }

  /** `count` of the script: occurrences as `split` sees them. */
  function Count(text: string, needle: string): nat
    requires needle != ""
  {
    |Split(text, needle)| - 1
  }

  /** `text.slice(end)`, where -1 means the last character. */
  function SliceFrom(text: string, end: int): string
    requires -1 <= end <= |text|
  {
    if end >= 0 then text[end..] else if text == "" then "" else text[|text| - 1..]
  }

  /** One round of the loop; None is the script's refusal. */
  function ApplyOne(text: string, row: Row): Option<string> {
    var needle := Needle(row.name);
    if Count(text, needle) != 1 then None
    else
      NeedleFound(text, needle);
      var start := Index(text, needle) + |needle|;
      var end := IndexFrom(text, QUOTE, start);
      Some(text[..start] + row.expected + SliceFrom(text, end))
  }

  lemma NeedleIsNotEmpty(name: string)
    ensures Needle(name) != ""
  {
  }

  lemma NeedleFound(text: string, needle: string)
    requires needle != "" && Count(text, needle) == 1
    ensures Index(text, needle) >= 0
  {
  }

  function ApplyAll(text: string, rows: seq<Row>): Option<string>
    decreases |rows|
  {
    if rows == [] then Some(text)
    else
      var next := ApplyOne(text, rows[0]);
      if next.None? then None else ApplyAll(next.value, rows[1..])
  }

  method ApplyManifestVersions(text: string, changes: seq<Row>) returns (result: Option<string>)
    ensures result == ApplyAll(text, changes)
  {
    hide Needle, Split, IndexFrom, Index, SliceFrom;
    var out := text;
    for i := 0 to |changes|
      invariant ApplyAll(out, changes[i..]) == ApplyAll(text, changes)
    {
      var row := changes[i];
      assert changes[i..][0] == row && changes[i..][1..] == changes[i + 1..];
      var needle := Needle(row.name);
      assert needle != "" by { NeedleIsNotEmpty(row.name); }
      var count := |Split(out, needle)| - 1;
      if count != 1 {
        return None;
      }
      NeedleFound(out, needle);
      var start := Index(out, needle) + |needle|;
      var end := IndexFrom(out, QUOTE, start);
      out := out[..start] + row.expected + SliceFrom(out, end);
    }
    return Some(out);
  }

  // ------------------------------------------------- declarations as quoted pieces

  function Pieces(text: string): (p: seq<string>)
    ensures |p| >= 1
  {
    Split(text, QUOTE)
  }

  predicate KeyAt(p: seq<string>, t: int, name: string) {
    1 <= t && t + 2 < |p| && p[t] == name && p[t + 1] == COLON
  }

  /** `name` is a key exactly once, at piece `t`; its value is closed by a quote and is not
      itself a key. */
  predicate DeclaredAt(p: seq<string>, t: int, name: string) {
    && KeyAt(p, t, name)
    && (forall u | 0 <= u < |p| && KeyAt(p, u, name) :: u == t)
    && t + 3 < |p|
    && p[t + 3] != COLON
  }

  predicate Declared(p: seq<string>, name: string) {
    exists t | 0 <= t < |p| :: DeclaredAt(p, t, name)
  }

  function KeyIndex(p: seq<string>, name: string): (t: nat)
    requires Declared(p, name)
    ensures DeclaredAt(p, t, name)
  {
    KeyIndexUnique(p, name);
    var t :| 0 <= t < |p| && DeclaredAt(p, t, name);
    t
  }

  lemma KeyIndexUnique(p: seq<string>, name: string)
    ensures forall t, u | 0 <= t < |p| && 0 <= u < |p| && DeclaredAt(p, t, name) && DeclaredAt(p, u, name) :: t == u
  {
  }

  /** The spec a manifest declares for a name. */
  function Spec(text: string, name: string): string
    requires Declared(Pieces(text), name)
  {
    Pieces(text)[KeyIndex(Pieces(text), name) + 2]
  }

  predicate PackageName(name: string) {
    '"' !in name && ' ' !in name
  }

  /** The rows a plan may carry: distinct package names, specs without quotes. */
  predicate WellFormedPlan(rows: seq<Row>) {
    && (forall i | 0 <= i < |rows| :: PackageName(rows[i].name) && '"' !in rows[i].expected)
    && (forall i, j | 0 <= i < j < |rows| :: rows[i].name != rows[j].name)
  }

  predicate AllDeclared(text: string, rows: seq<Row>) {
    forall i | 0 <= i < |rows| :: Declared(Pieces(text), rows[i].name)
  }

  // ------------------------------------------- offsets and pieces tell the same story

  lemma KeyOccurs(p: seq<string>, t: nat, name: string)
    requires KeyAt(p, t, name)
    ensures Join(p, QUOTE) == Join(p[..t], QUOTE) + Needle(name) + Join(p[t + 2..], QUOTE)
    ensures OccursAt(Join(p, QUOTE), Needle(name), |Join(p[..t], QUOTE)|)
  {
    JoinCut(p, QUOTE, t);
    var tail := p[t + 2..];
    assert p[t..] == [name, COLON] + tail;
    assert p[t..][1..] == [COLON] + tail && p[t..][1..][1..] == tail;
    assert Join(p[t..], QUOTE) == name + QUOTE + (COLON + QUOTE + Join(tail, QUOTE));
    var a, b := Join(p[..t], QUOTE), Join(tail, QUOTE);
    assert a + QUOTE + (name + QUOTE + (COLON + QUOTE + b)) == a + Needle(name) + b;
  }

  lemma OccurrenceIsKey(text: string, name: string, i: nat) returns (t: nat)
    requires '"' !in name && OccursAt(text, Needle(name), i)
    ensures KeyAt(Pieces(text), t, name)
    ensures i == |Join(Pieces(text)[..t], QUOTE)|
  {
    var a, b := text[..i], text[i + |Needle(name)|..];
    assert text == a + Needle(name) + b;
    assert text == a + ['"'] + (name + ['"'] + (COLON + ['"'] + b));
    SplitCat(a, '"', name + ['"'] + (COLON + ['"'] + b));
    SplitHead(name, '"', COLON + ['"'] + b);
    SplitHead(COLON, '"', b);
    t := |Split(a, QUOTE)|;
    var p := Pieces(text);
    assert p == Split(a, QUOTE) + ([name] + ([COLON] + Split(b, QUOTE)));
    assert p[..t] == Split(a, QUOTE);
    JoinSplit(a, QUOTE);
  }

  /** For a declared name the script's guard passes and its offset is the key's. */
  lemma DeclaredFound(text: string, name: string)
    requires PackageName(name) && Declared(Pieces(text), name)
    ensures var t := KeyIndex(Pieces(text), name);
            && Count(text, Needle(name)) == 1
            && Index(text, Needle(name)) == |Join(Pieces(text)[..t], QUOTE)|
  {
    var p, needle := Pieces(text), Needle(name);
    var t := KeyIndex(p, name);
    var i := |Join(p[..t], QUOTE)|;
    JoinSplit(text, QUOTE);
    KeyOccurs(p, t, name);
    forall j | OccursAt(text, needle, j) ensures j == i {
      var u := OccurrenceIsKey(text, name, j);
    }
    SplitOnce(text, needle, i);
  }

  // ------------------------------------------------ what a declaration looks like

  /** The text holds `"name": "value"`, the value in quotes and itself no key. */
  predicate DeclaresAs(text: string, name: string, head: string, value: string, tail: string) {
    && text == head + ("\"" + name + "\": \"") + value + "\"" + tail
    && '"' !in value && tail != ": " && !(": \"" <= tail)
  }

  ghost predicate OnePlace(text: string, needle: string) {
    forall i, j | OccursAt(text, needle, i) && OccursAt(text, needle, j) :: i == j
  }

  lemma NeedleIs(name: string)
    ensures Needle(name) == "\"" + name + "\": \"" == ['"'] + name + ['"'] + COLON + ['"']
  {
    assert QUOTE + (COLON + QUOTE) == "\": \"";
    assert QUOTE + name + QUOTE + COLON + QUOTE == QUOTE + name + (QUOTE + (COLON + QUOTE));
  }

  /** The pieces of a text that holds a declaration. */
  lemma PiecesAround(text: string, name: string, head: string, value: string, tail: string)
    requires PackageName(name) && DeclaresAs(text, name, head, value, tail)
    ensures var t := |Split(head, QUOTE)|;
            && Pieces(text) == Split(head, QUOTE) + ([name] + ([COLON] + ([value] + Split(tail, QUOTE))))
            && KeyAt(Pieces(text), t, name) && t + 3 < |Pieces(text)|
            && Pieces(text)[t + 2] == value && Pieces(text)[t + 3] == Split(tail, QUOTE)[0]
  {
    NeedleIs(name);
    hide Split;
    var a := value + ['"'] + tail;
    var b := COLON + ['"'] + a;
    var c := name + ['"'] + b;
    Unnest(head, name, value, tail);
    SplitCat(head, '"', c);
    SplitHead(name, '"', b);
    SplitHead(COLON, '"', a);
    SplitHead(value, '"', tail);
  }

  lemma Unnest(head: string, name: string, value: string, tail: string)
    ensures head + (['"'] + name + ['"'] + COLON + ['"']) + value + ['"'] + tail ==
            head + ['"'] + (name + ['"'] + (COLON + ['"'] + (value + ['"'] + tail)))
  {
  }

  lemma TailPiece(tail: string)
    ensures Split(tail, QUOTE)[0] == COLON <==> tail == ": " || ": \"" <= tail
  {
    if ": \"" <= tail {
      assert tail == COLON + ['"'] + tail[3..];
      SplitHead(COLON, '"', tail[3..]);
    } else if tail == ": " {
      SplitWhole(tail, '"');
    } else if Split(tail, QUOTE)[0] == COLON {
      hide COLON;
      JoinSplit(tail, QUOTE);
      FirstPiece(tail);
    }
  }

  lemma FirstPiece(tail: string)
    requires Split(tail, QUOTE)[0] == ": "
    ensures tail == ": " || ": \"" <= tail
  {
    var p := Split(tail, QUOTE);
    JoinSplit(tail, QUOTE);
    if |p| > 1 {
      assert tail == ": " + QUOTE + Join(p[1..], QUOTE);
      assert ": " + QUOTE == ": \"";
    }
  }

  /** A name is declared exactly where its key occurs at one place only, with a value in quotes that
      is not itself a key; and that value is its spec. */
  lemma DeclaredIff(text: string, name: string)
    requires PackageName(name)
    ensures Declared(Pieces(text), name) <==>
              OnePlace(text, "\"" + name + "\": \"")
              && exists head, value, tail :: DeclaresAs(text, name, head, value, tail)
    ensures Declared(Pieces(text), name) ==>
              exists head, tail :: DeclaresAs(text, name, head, Spec(text, name), tail)
  {
    NeedleIs(name);
    hide Split, Needle;
    if Declared(Pieces(text), name) { DeclaredHasForm(text, name); }
    if head, value, tail :| OnePlace(text, Needle(name)) && DeclaresAs(text, name, head, value, tail) {
      FormIsDeclared(text, name, head, value, tail);
    }
  }

  lemma DeclaredAtOnePlace(text: string, name: string)
    requires PackageName(name) && Declared(Pieces(text), name)
    ensures OnePlace(text, Needle(name))
  {
    var t := KeyIndex(Pieces(text), name);
    hide Needle, Split, OccursAt;
    forall i, j | OccursAt(text, Needle(name), i) && OccursAt(text, Needle(name), j) ensures i == j {
      var u := OccurrenceIsKey(text, name, i);
      var v := OccurrenceIsKey(text, name, j);
      assert u == t && v == t;
    }
  }

  lemma TailIsNoColon(parts: seq<string>)
    requires parts != [] && LineFree(parts, '"') && parts[0] != COLON
    ensures var tail := Join(parts, QUOTE); tail != ": " && !(": \"" <= tail)
  {
    SplitJoin(parts, '"');
    TailPiece(Join(parts, QUOTE));
    hide Join, Split;
  }

  lemma DeclaredHasForm(text: string, name: string)
    requires PackageName(name) && Declared(Pieces(text), name)
    ensures OnePlace(text, Needle(name))
    ensures exists head, tail :: DeclaresAs(text, name, head, Spec(text, name), tail)
  {
    DeclaredAtOnePlace(text, name);
    var p := Pieces(text);
    var t := KeyIndex(p, name);
    JoinSplit(text, QUOTE);
    AroundValue(p, t, name);
    NeedleIs(name);
    SplitLineFree(text, '"');
    TailIsNoColon(p[t + 3..]);
    assert Spec(text, name) == p[t + 2];
    hide OnePlace, Split, Join, Needle, Spec, KeyIndex, Declared, KeyAt;
    var head, tail := Join(p[..t], QUOTE), Join(p[t + 3..], QUOTE);
    Unnested(head, Needle(name), p[t + 2], tail);
    assert DeclaresAs(text, name, head, p[t + 2], tail);
  }

  lemma Unnested(head: string, needle: string, value: string, tail: string)
    ensures (head + needle) + (value + QUOTE + tail) == head + needle + value + "\"" + tail
  {
  }

  lemma FormIsDeclared(text: string, name: string, head: string, value: string, tail: string)
    requires PackageName(name) && OnePlace(text, Needle(name)) && DeclaresAs(text, name, head, value, tail)
    ensures Declared(Pieces(text), name) && Spec(text, name) == value
  {
    PiecesAround(text, name, head, value, tail);
    TailPiece(tail);
    var p, t := Pieces(text), |Split(head, QUOTE)|;
    JoinSplit(text, QUOTE);
    KeyOccurs(p, t, name);
    forall u | 0 <= u < |p| && KeyAt(p, u, name) ensures u == t {
      KeyOccurs(p, u, name);
      SameOffsetSamePiece(p, t, u);
    }
    assert DeclaredAt(p, t, name);
  }

  lemma {:induction false} SameOffsetSamePiece(p: seq<string>, t: nat, u: nat)
    requires t < |p| && u < |p| && |Join(p[..t], QUOTE)| == |Join(p[..u], QUOTE)|
    requires t >= 1 && u >= 1
    ensures t == u
  {
    if t < u { PrefixGrows(p, t, u); }
    if u < t { PrefixGrows(p, u, t); }
  }

  lemma PrefixGrows(p: seq<string>, t: nat, u: nat)
    requires 1 <= t < u <= |p|
    ensures |Join(p[..t], QUOTE)| < |Join(p[..u], QUOTE)|
  {
    JoinCut(p[..u], QUOTE, t);
    assert p[..u][..t] == p[..t];
  }

  /** The text around a value piece. */
  lemma AroundValue(p: seq<string>, t: nat, name: string)
    requires KeyAt(p, t, name) && t + 3 < |p|
    ensures Join(p, QUOTE) ==
            (Join(p[..t], QUOTE) + Needle(name)) + (p[t + 2] + QUOTE + Join(p[t + 3..], QUOTE))
  {
    KeyOccurs(p, t, name);
    assert p[t + 2..][1..] == p[t + 3..];
  }

  /** One round, once the text is cut at the value. */
  lemma ApplyOneAt(text: string, row: Row, head: string, value: string, tail: string)
    requires Count(text, Needle(row.name)) == 1
    requires |head| == Index(text, Needle(row.name)) + |Needle(row.name)|
    requires text == head + (value + QUOTE + tail) && '"' !in value
    ensures ApplyOne(text, row) == Some(head + (row.expected + QUOTE + tail))
  {
    hide Needle, Count, IndexFrom, Index;
    CharFound(head, value, '"', tail);
    CutText(head, value, tail);
    assert head + row.expected + (QUOTE + tail) == head + (row.expected + QUOTE + tail);
  }

  lemma CutText(head: string, value: string, tail: string)
    ensures var text := head + (value + QUOTE + tail);
            text[..|head|] == head && |head| + |value| < |text| && text[|head| + |value|..] == QUOTE + tail
  {
  }

  /** A value that is never closed is cut to the last character of the text, which stays. */
  lemma UnclosedValueIsCut(text: string, row: Row, head: string, rest: string)
    requires text == head + Needle(row.name) + rest && '"' !in rest
    requires Count(text, Needle(row.name)) == 1 && Index(text, Needle(row.name)) == |head|
    ensures ApplyOne(text, row) == Some(head + Needle(row.name) + row.expected + [text[|text| - 1]])
  {
    assert Needle(row.name) != "" by { NeedleIsNotEmpty(row.name); }
    hide Count, Index, Needle;
    var start := |head| + |Needle(row.name)|;
    assert text[..start] == head + Needle(row.name);
    forall i | start <= i ensures !OccursAt(text, QUOTE, i) {
      OneChar(text, '"', i);
      assert i < |text| ==> text[i] == rest[i - start];
    }
    assert IndexFrom(text, QUOTE, start) == -1;
    assert text[|text| - 1..] == [text[|text| - 1]];
  }

  /** One round replaces one piece and nothing else. */
  lemma ApplyOneSetsPiece(text: string, row: Row)
    requires PackageName(row.name) && '"' !in row.expected
    requires Declared(Pieces(text), row.name)
    ensures var t := KeyIndex(Pieces(text), row.name);
            var next := ApplyOne(text, row);
            next.Some? && Pieces(next.value) == Pieces(text)[t + 2 := row.expected]
  {
    var p := Pieces(text);
    var t := KeyIndex(p, row.name);
    var q := p[t + 2 := row.expected];
    DeclaredFound(text, row.name);
    SplitLineFree(text, '"');
    JoinSplit(text, QUOTE);
    AroundValue(p, t, row.name);
    AroundValue(q, t, row.name);
    assert q[..t] == p[..t] && q[t + 3..] == p[t + 3..];
    ApplyOneAt(text, row, Join(p[..t], QUOTE) + Needle(row.name), p[t + 2], Join(p[t + 3..], QUOTE));
    SplitJoin(q, '"');
  }

  // --------------------------------------------------- no round disturbs another key

  /** Setting one declared value moves no key: every name is declared afterwards exactly
      where it was before. */
  lemma SettingAValueMovesNoKey(p: seq<string>, t: nat, owner: string, v: string, name: string, u: int)
    requires DeclaredAt(p, t, owner) && PackageName(name)
    ensures KeyAt(p[t + 2 := v], u, name) <==> KeyAt(p, u, name)
  {
  }

  lemma SettingAValueKeepsDeclared(p: seq<string>, t: nat, owner: string, v: string, name: string)
    requires DeclaredAt(p, t, owner) && PackageName(owner)
    requires PackageName(name) && Declared(p, name)
    ensures Declared(p[t + 2 := v], name) && KeyIndex(p[t + 2 := v], name) == KeyIndex(p, name)
  {
    var q, u := p[t + 2 := v], KeyIndex(p, name);
    forall w ensures KeyAt(q, w, name) <==> KeyAt(p, w, name) {
      SettingAValueMovesNoKey(p, t, owner, v, name, w);
    }
    assert u + 1 != t;
    assert DeclaredAt(q, u, name);
  }

  // ---------------------------------------------------- the loop on quoted pieces

  function Slot(p: seq<string>, name: string): (k: nat)
    requires Declared(p, name)
    ensures 2 <= k < |p| && p[k - 2] == name
  {
    KeyIndex(p, name) + 2
  }

  function Slots(p: seq<string>, rows: seq<Row>): seq<nat>
    requires forall i | 0 <= i < |rows| :: Declared(p, rows[i].name)
  {
    seq(|rows|, i requires 0 <= i < |rows| => Slot(p, rows[i].name))
  }

  /** `p` with the i-th row's spec written at the i-th slot. */
  function SetAll(p: seq<string>, slots: seq<nat>, rows: seq<Row>): seq<string>
    requires |slots| == |rows| && forall i | 0 <= i < |slots| :: slots[i] < |p|
    decreases |rows|
  {
    if rows == [] then p else SetAll(p[slots[0] := rows[0].expected], slots[1..], rows[1..])
  }

  predicate Distinct(slots: seq<nat>) {
    forall i, j | 0 <= i < j < |slots| :: slots[i] != slots[j]
  }

  /** `q` is `p` with every slot set to its row's spec and every other piece as it was. */
  predicate Carries(p: seq<string>, slots: seq<nat>, rows: seq<Row>, q: seq<string>)
    requires |slots| == |rows| && forall i | 0 <= i < |slots| :: slots[i] < |p|
  {
    && |q| == |p|
    && (forall i | 0 <= i < |rows| :: q[slots[i]] == rows[i].expected)
    && (forall k | 0 <= k < |p| && k !in slots :: q[k] == p[k])
  }

  lemma {:induction false} SetAllCarries(p: seq<string>, slots: seq<nat>, rows: seq<Row>)
    requires |slots| == |rows| && (forall i | 0 <= i < |slots| :: slots[i] < |p|) && Distinct(slots)
    ensures Carries(p, slots, rows, SetAll(p, slots, rows))
    decreases |rows|
  {
    if rows != [] {
      var m := p[slots[0] := rows[0].expected];
      SetAllCarries(m, slots[1..], rows[1..]);
      var q := SetAll(p, slots, rows);
      assert slots[0] !in slots[1..];
      forall i | 0 <= i < |rows| ensures q[slots[i]] == rows[i].expected {
        if i > 0 { assert slots[i] == slots[1..][i - 1] && rows[i] == rows[1..][i - 1]; }
      }
    }
  }

  lemma SlotsDistinct(p: seq<string>, rows: seq<Row>)
    requires WellFormedPlan(rows) && forall i | 0 <= i < |rows| :: Declared(p, rows[i].name)
    ensures Distinct(Slots(p, rows))
  {
    var s := Slots(p, rows);
    forall i, j | 0 <= i < j < |s| ensures s[i] != s[j] {
      assert p[s[i] - 2] == rows[i].name && p[s[j] - 2] == rows[j].name;
    }
  }

  /** Same keys at the same places. */
  ghost predicate SameKeys(p: seq<string>, q: seq<string>) {
    forall name | PackageName(name) && Declared(p, name) ::
      Declared(q, name) && KeyIndex(q, name) == KeyIndex(p, name)
  }

  lemma SetKeepsKeys(p: seq<string>, row: Row)
    requires PackageName(row.name) && Declared(p, row.name)
    ensures SameKeys(p, p[Slot(p, row.name) := row.expected])
  {
    forall name | PackageName(name) && Declared(p, name)
      ensures Declared(p[Slot(p, row.name) := row.expected], name)
      ensures KeyIndex(p[Slot(p, row.name) := row.expected], name) == KeyIndex(p, name)
    {
      SettingAValueKeepsDeclared(p, KeyIndex(p, row.name), row.name, row.expected, name);
    }
  }

  lemma SameKeysTrans(p: seq<string>, q: seq<string>, r: seq<string>)
    requires SameKeys(p, q) && SameKeys(q, r)
    ensures SameKeys(p, r)
  {
  }

  lemma SameKeysSlots(p: seq<string>, q: seq<string>, rows: seq<Row>)
    requires SameKeys(p, q)
    requires forall i | 0 <= i < |rows| :: PackageName(rows[i].name) && Declared(p, rows[i].name)
    ensures forall i | 0 <= i < |rows| :: Declared(q, rows[i].name)
    ensures Slots(q, rows) == Slots(p, rows)
  {
    assert forall i | 0 <= i < |rows| :: KeyIndex(q, rows[i].name) == KeyIndex(p, rows[i].name);
  }

  /** The loop writes every spec at its slot, moves no key, and does nothing else. */
  lemma {:induction false} ApplyAllSets(text: string, rows: seq<Row>)
    requires WellFormedPlan(rows) && AllDeclared(text, rows)
    ensures ApplyAll(text, rows).Some?
    ensures var p, q := Pieces(text), Pieces(ApplyAll(text, rows).value);
            q == SetAll(p, Slots(p, rows), rows) && SameKeys(p, q)
    decreases |rows|
  {
    hide ApplyOne, Pieces, Declared;
    if rows != [] {
      var p, row, rest := Pieces(text), rows[0], rows[1..];
      ApplyOneSetsPiece(text, row);
      var next := ApplyOne(text, row).value;
      SetKeepsKeys(p, row);
      SameKeysSlots(p, Pieces(next), rest);
      ApplyAllSets(next, rest);
      assert Slots(p, rows) == [Slot(p, row.name)] + Slots(p, rest);
      SameKeysTrans(p, Pieces(next), Pieces(ApplyAll(next, rest).value));
    }
  }

  lemma ApplyAllCarries(text: string, rows: seq<Row>)
    requires WellFormedPlan(rows) && AllDeclared(text, rows)
    ensures ApplyAll(text, rows).Some?
    ensures var p, q := Pieces(text), Pieces(ApplyAll(text, rows).value);
            Carries(p, Slots(p, rows), rows, q) && SameKeys(p, q)
  {
    ApplyAllSets(text, rows);
    SlotsDistinct(Pieces(text), rows);
    SetAllCarries(Pieces(text), Slots(Pieces(text), rows), rows);
  }

  lemma TextFromPieces(s: string, t: string)
    requires Pieces(s) == Pieces(t)
    ensures s == t
  {
    JoinSplit(s, QUOTE);
    JoinSplit(t, QUOTE);
  }

  // -------------------------------------------------------------- the main laws

  /** Every planned name ends up carrying its expected spec. */
  lemma PlannedSpecsAreWritten(text: string, rows: seq<Row>)
    requires WellFormedPlan(rows) && AllDeclared(text, rows)
    ensures ApplyAll(text, rows).Some? && AllDeclared(ApplyAll(text, rows).value, rows)
    ensures forall i | 0 <= i < |rows| :: Spec(ApplyAll(text, rows).value, rows[i].name) == rows[i].expected
  {
    ApplyAllCarries(text, rows);
    var p, q := Pieces(text), Pieces(ApplyAll(text, rows).value);
    SameKeysSlots(p, q, rows);
    forall i | 0 <= i < |rows| ensures Spec(ApplyAll(text, rows).value, rows[i].name) == rows[i].expected {
      assert Slots(p, rows)[i] == Slots(q, rows)[i] == Slot(q, rows[i].name);
    }
  }

  /** Every other declared name keeps its declaration and its spec. */
  lemma OtherSpecsAreKept(text: string, rows: seq<Row>, name: string)
    requires WellFormedPlan(rows) && AllDeclared(text, rows)
    requires PackageName(name) && Declared(Pieces(text), name)
    requires forall i | 0 <= i < |rows| :: rows[i].name != name
    ensures ApplyAll(text, rows).Some? && Declared(Pieces(ApplyAll(text, rows).value), name)
    ensures Spec(ApplyAll(text, rows).value, name) == Spec(text, name)
  {
    hide ApplyAll, Pieces, Declared, Carries, Slot, KeyIndex, Spec, Slots, SameKeys, WellFormedPlan;
    ApplyAllCarries(text, rows);
    var p, q := Pieces(text), Pieces(ApplyAll(text, rows).value);
    assert forall i | 0 <= i < |rows| :: Declared(p, rows[i].name) && rows[i].name != name;
    OtherSlotKept(p, rows, q, name);
    SpecIsSlot(text, name);
    SpecIsSlot(ApplyAll(text, rows).value, name);
  }

  lemma SpecIsSlot(text: string, name: string)
    requires Declared(Pieces(text), name)
    ensures Spec(text, name) == Pieces(text)[Slot(Pieces(text), name)]
  {
    hide Pieces, Declared;
  }

  lemma OtherSlotKept(p: seq<string>, rows: seq<Row>, q: seq<string>, name: string)
    requires PackageName(name) && Declared(p, name)
    requires forall i | 0 <= i < |rows| :: Declared(p, rows[i].name) && rows[i].name != name
    requires Carries(p, Slots(p, rows), rows, q) && SameKeys(p, q)
    ensures Declared(q, name) && q[Slot(q, name)] == p[Slot(p, name)]
  {
    SlotIsFree(p, rows, name);
    assert Slot(q, name) == Slot(p, name);
  }

  lemma SlotIsFree(p: seq<string>, rows: seq<Row>, name: string)
    requires Declared(p, name) && forall i | 0 <= i < |rows| :: Declared(p, rows[i].name)
    requires forall i | 0 <= i < |rows| :: rows[i].name != name
    ensures Slot(p, name) !in Slots(p, rows)
  {
    forall i | 0 <= i < |rows| ensures Slots(p, rows)[i] != Slot(p, name) {
      assert p[Slot(p, rows[i].name) - 2] == rows[i].name;
    }
  }

  predicate SameNames(a: seq<Row>, b: seq<Row>) {
    |a| == |b| && forall i | 0 <= i < |a| :: a[i].name == b[i].name
  }

  lemma SameNamesSameSlots(p: seq<string>, a: seq<Row>, b: seq<Row>)
    requires SameNames(a, b) && forall i | 0 <= i < |a| :: Declared(p, a[i].name)
    ensures forall i | 0 <= i < |b| :: Declared(p, b[i].name)
    ensures Slots(p, a) == Slots(p, b)
  {
  }

  /** A later run over the same names overrides an earlier one exactly. */
  lemma LaterRunOverrides(text: string, a: seq<Row>, b: seq<Row>)
    requires WellFormedPlan(a) && WellFormedPlan(b) && SameNames(a, b) && AllDeclared(text, a)
    ensures ApplyAll(text, a).Some? && ApplyAll(text, b).Some?
    ensures ApplyAll(ApplyAll(text, a).value, b) == ApplyAll(text, b)
  {
    var p := Pieces(text);
    SameNamesSameSlots(p, a, b);
    ApplyAllCarries(text, a);
    ApplyAllCarries(text, b);
    var mid := ApplyAll(text, a).value;
    SameKeysSlots(p, Pieces(mid), b);
    ApplyAllCarries(mid, b);
    OverrideAt(p, Slots(p, a), a, b, Pieces(mid),
               Pieces(ApplyAll(mid, b).value), Pieces(ApplyAll(text, b).value));
    TextFromPieces(ApplyAll(mid, b).value, ApplyAll(text, b).value);
  }

  lemma OverrideAt(p: seq<string>, slots: seq<nat>, a: seq<Row>, b: seq<Row>,
                   m: seq<string>, q: seq<string>, r: seq<string>)
    requires |slots| == |a| == |b| && forall i | 0 <= i < |slots| :: slots[i] < |p|
    requires Carries(p, slots, a, m) && Carries(m, slots, b, q) && Carries(p, slots, b, r)
    ensures q == r
  {
    forall k | 0 <= k < |p| ensures q[k] == r[k] {
      if k in slots {
        var i :| 0 <= i < |slots| && slots[i] == k;
      }
    }
  }

  lemma Idempotent(text: string, rows: seq<Row>)
    requires WellFormedPlan(rows) && AllDeclared(text, rows)
    ensures ApplyAll(text, rows).Some?
    ensures ApplyAll(ApplyAll(text, rows).value, rows) == ApplyAll(text, rows)
  {
    LaterRunOverrides(text, rows, rows);
  }

  /** Each name with the spec the text declares for it now. */
  function CurrentRows(text: string, rows: seq<Row>): seq<Row>
    requires AllDeclared(text, rows)
  {
    seq(|rows|, i requires 0 <= i < |rows| => Row(rows[i].name, Spec(text, rows[i].name)))
  }

  /** No other character changes: writing the old specs back restores the file. */
  lemma WritingBackRestores(text: string, rows: seq<Row>)
    requires WellFormedPlan(rows) && AllDeclared(text, rows)
    ensures ApplyAll(text, rows).Some?
    ensures ApplyAll(ApplyAll(text, rows).value, CurrentRows(text, rows)) == Some(text)
  {
    hide ApplyAll, Pieces, Declared, CurrentRows;
    var p, now := Pieces(text), CurrentRows(text, rows);
    CurrentRowsWellFormed(text, rows);
    LaterRunOverrides(text, rows, now);
    ApplyAllCarries(text, now);
    var q := Pieces(ApplyAll(text, now).value);
    forall k | 0 <= k < |p| ensures q[k] == p[k] {
      if k in Slots(p, now) {
        var i :| 0 <= i < |now| && Slots(p, now)[i] == k;
      }
    }
    assert q == p;
    TextFromPieces(text, ApplyAll(text, now).value);
  }

  lemma CurrentRowsWellFormed(text: string, rows: seq<Row>)
    requires WellFormedPlan(rows) && AllDeclared(text, rows)
    ensures WellFormedPlan(CurrentRows(text, rows)) && SameNames(rows, CurrentRows(text, rows))
    ensures AllDeclared(text, CurrentRows(text, rows))
    ensures var p, now := Pieces(text), CurrentRows(text, rows);
            forall i | 0 <= i < |now| :: now[i].expected == p[Slots(p, now)[i]]
  {
    hide Split, Declared;
    SplitLineFree(text, '"');
  }

  /** The order of the plan does not matter. */
  lemma OrderDoesNotMatter(text: string, a: seq<Row>, b: seq<Row>)
    requires WellFormedPlan(a) && WellFormedPlan(b) && AllDeclared(text, a)
    requires forall row :: row in a <==> row in b
    ensures ApplyAll(text, a) == ApplyAll(text, b)
  {
    var p := Pieces(text);
    forall i | 0 <= i < |b| ensures Declared(p, b[i].name) {
      assert b[i] in a;
    }
    ApplyAllCarries(text, a);
    ApplyAllCarries(text, b);
    SameRowsSameWrites(p, a, b);
    SameRowsSameWrites(p, b, a);
    SameRowsSamePieces(p, Slots(p, a), a, Pieces(ApplyAll(text, a).value),
                       Slots(p, b), b, Pieces(ApplyAll(text, b).value));
    TextFromPieces(ApplyAll(text, a).value, ApplyAll(text, b).value);
  }

  /** What the plan writes and where, with the order forgotten. */
  ghost function Writes(slots: seq<nat>, rows: seq<Row>): set<(nat, string)>
    requires |slots| == |rows|
  {
    set i | 0 <= i < |rows| :: (slots[i], rows[i].expected)
  }

  lemma SameRowsSameWrites(p: seq<string>, a: seq<Row>, b: seq<Row>)
    requires forall i | 0 <= i < |a| :: Declared(p, a[i].name)
    requires forall i | 0 <= i < |b| :: Declared(p, b[i].name)
    requires forall row :: row in a ==> row in b
    ensures Writes(Slots(p, a), a) <= Writes(Slots(p, b), b)
  {
    forall w | w in Writes(Slots(p, a), a) ensures w in Writes(Slots(p, b), b) {
      var i :| 0 <= i < |a| && w == (Slots(p, a)[i], a[i].expected);
      assert a[i] in b;
      var j :| 0 <= j < |b| && b[j] == a[i];
      assert w == (Slots(p, b)[j], b[j].expected);
    }
  }

  /** The text a plan leaves is fixed by what it writes. */
  lemma CarriesByWrites(p: seq<string>, slots: seq<nat>, rows: seq<Row>, q: seq<string>, k: nat)
    requires |slots| == |rows| && forall i | 0 <= i < |slots| :: slots[i] < |p|
    requires Carries(p, slots, rows, q) && k < |p|
    ensures q[k] == p[k] || (k, q[k]) in Writes(slots, rows)
    ensures forall v :: (k, v) in Writes(slots, rows) ==> q[k] == v
  {
    if k in slots {
      var i :| 0 <= i < |slots| && slots[i] == k;
      assert (slots[i], rows[i].expected) in Writes(slots, rows);
    }
  }

  lemma SameRowsSamePieces(p: seq<string>, sa: seq<nat>, a: seq<Row>, q: seq<string>,
                           sb: seq<nat>, b: seq<Row>, r: seq<string>)
    requires |sa| == |a| && forall i | 0 <= i < |sa| :: sa[i] < |p|
    requires |sb| == |b| && forall i | 0 <= i < |sb| :: sb[i] < |p|
    requires Carries(p, sa, a, q) && Carries(p, sb, b, r)
    requires Writes(sa, a) == Writes(sb, b)
    ensures q == r
  {
    forall k | 0 <= k < |p| ensures q[k] == r[k] {
      CarriesByWrites(p, sa, a, q, k);
      CarriesByWrites(p, sb, b, r, k);
    }
  }

  lemma CountIsOne(text: string, needle: string)
    requires needle != ""
    ensures Count(text, needle) == 1 <==>
              var first := Index(text, needle);
              first != -1 && Index(text[first + |needle|..], needle) == -1
  {
    hide Index;
    var first := Index(text, needle);
    if first != -1 {
      var rest := text[first + |needle|..];
      assert |Split(text, needle)| == 1 + |Split(rest, needle)|;
      assert |Split(rest, needle)| == 1 <==> Index(rest, needle) == -1;
    }
  }

  /** The key of `name` stands in the text, and nowhere a second time clear of the first. */
  predicate DeclaredOnce(text: string, name: string) {
    && Index(text, Needle(name)) != -1
    && forall i, j | 0 <= i <= |text| && i + |Needle(name)| <= j <= |text| ::
         !(OccursAt(text, Needle(name), i) && OccursAt(text, Needle(name), j))
  }

  /** One row is written exactly when its name is declared once: a name the text does not hold, or
      holds twice, is refused and nothing is written. */
  lemma WrittenIffDeclaredOnce(text: string, row: Row)
    ensures ApplyAll(text, [row]).Some? <==> DeclaredOnce(text, row.name)
  {
    var needle := Needle(row.name);
    hide Needle, IndexFrom, Index, SliceFrom;
    NeedleIsNotEmpty(row.name);
    CountIsOne(text, needle);
    var first := Index(text, needle);
    assert ApplyAll(text, [row]).Some? <==> Count(text, needle) == 1 by { OneRow(text, row); }
    if first != -1 {
      var rest := text[first + |needle|..];
      var next := Index(rest, needle);
      if next == -1 {
        forall i, j | 0 <= i <= |text| && i + |needle| <= j <= |text|
          ensures !(OccursAt(text, needle, i) && OccursAt(text, needle, j))
        {
          if first <= i { OccursInTail(text, needle, first + |needle|, j - first - |needle|); }
        }
      } else {
        OccursInTail(text, needle, first + |needle|, next);
      }
    }
  }

  lemma OneRow(text: string, row: Row)
    ensures ApplyAll(text, [row]).Some? <==> Count(text, Needle(row.name)) == 1
  {
    hide Needle, IndexFrom, Index, Count, SliceFrom;
    var next := ApplyOne(text, row);
    if next.Some? { assert ApplyAll(next.value, [row][1..]) == Some(next.value); }
  }

  // ------------------------------------------------------ the plan and its application

  predicate Present(manifest: string, row: Row) {
    Index(manifest, Needle(row.name)) != -1
  }

  lemma {:induction false} PlanIsThePresent(manifest: string, drifted: seq<Row>)
    ensures forall row :: row in PlanExpoBump(manifest, drifted) <==> row in drifted && Present(manifest, row)
    ensures WellFormedPlan(drifted) ==> WellFormedPlan(PlanExpoBump(manifest, drifted))
    decreases |drifted|
  {
    hide Needle;
    if drifted != [] {
      PlanIsThePresent(manifest, drifted[1..]);
      assert drifted == [drifted[0]] + drifted[1..];
      if WellFormedPlan(drifted) {
        var rest := PlanExpoBump(manifest, drifted[1..]);
        forall i | 0 <= i < |rest| ensures rest[i].name != drifted[0].name {
          assert rest[i] in drifted[1..];
          var k :| 0 <= k < |drifted| - 1 && drifted[1..][k] == rest[i];
          assert drifted[k + 1] == rest[i];
        }
      }
    }
  }

  /** A plan made from a manifest applies to it whole: where each drifted name is either absent
      or declared once, every planned name ends up with its expected spec and no absent name
      is written in. */
  lemma PlanApplies(manifest: string, drifted: seq<Row>)
    requires WellFormedPlan(drifted)
    requires forall row | row in drifted && Present(manifest, row) :: Declared(Pieces(manifest), row.name)
    ensures var plan := PlanExpoBump(manifest, drifted);
            && ApplyAll(manifest, plan).Some? && AllDeclared(ApplyAll(manifest, plan).value, plan)
            && (forall i | 0 <= i < |plan| :: Spec(ApplyAll(manifest, plan).value, plan[i].name) == plan[i].expected)
            && (forall row | row in drifted && !Present(manifest, row) :: !Present(ApplyAll(manifest, plan).value, row))
  {
    hide Needle, Declared, ApplyOne, Present;
    var plan := PlanExpoBump(manifest, drifted);
    PlanIsThePresent(manifest, drifted);
    forall i | 0 <= i < |plan| ensures Declared(Pieces(manifest), plan[i].name) {
      assert plan[i] in plan;
    }
    PlannedSpecsAreWritten(manifest, plan);
    ApplyAllCarries(manifest, plan);
    forall row | row in drifted && !Present(manifest, row) ensures !Present(ApplyAll(manifest, plan).value, row) {
      AbsentStaysAbsent(manifest, plan, row);
    }
  }

  lemma AbsentStaysAbsent(manifest: string, plan: seq<Row>, row: Row)
    requires WellFormedPlan(plan) && AllDeclared(manifest, plan) && PackageName(row.name)
    requires ApplyAll(manifest, plan).Some? && !Present(manifest, row)
    ensures !Present(ApplyAll(manifest, plan).value, row)
  {
    var after := ApplyAll(manifest, plan).value;
    if Present(after, row) {
      var u := OccurrenceIsKey(after, row.name, Index(after, Needle(row.name)));
      ApplyAllCarries(manifest, plan);
      KeyWasThere(Pieces(manifest), plan, Pieces(after), row.name, u);
      JoinSplit(manifest, QUOTE);
      KeyOccurs(Pieces(manifest), u, row.name);
    }
  }

  /** No slot follows another at once: a key's colon stands between. */
  lemma SlotsApart(p: seq<string>, rows: seq<Row>, i: nat, j: nat)
    requires forall k | 0 <= k < |rows| :: Declared(p, rows[k].name) && PackageName(rows[k].name)
    requires i < |rows| && j < |rows|
    ensures Slots(p, rows)[i] != Slots(p, rows)[j] + 1
  {
    hide Declared;
    var t, u := KeyIndex(p, rows[i].name), KeyIndex(p, rows[j].name);
    assert KeyAt(p, t, rows[i].name) && KeyAt(p, u, rows[j].name);
    assert ' ' in COLON by { assert COLON[1] == ' '; }
  }

  lemma ColonIsNoName(name: string)
    requires PackageName(name)
    ensures name != COLON
  {
    assert COLON[1] == ' ';
  }

  /** A whole plan makes no key that was not there. */
  lemma KeyWasThere(p: seq<string>, rows: seq<Row>, q: seq<string>, name: string, u: nat)
    requires forall i | 0 <= i < |rows| :: Declared(p, rows[i].name) && PackageName(rows[i].name)
    requires Carries(p, Slots(p, rows), rows, q) && PackageName(name) && KeyAt(q, u, name)
    ensures KeyAt(p, u, name)
  {
    hide Declared, PackageName;
    var slots := Slots(p, rows);
    ColonIsNoName(name);
    forall i | 0 <= i < |rows| ensures slots[i] != u && slots[i] != u + 1 {
      var t := KeyIndex(p, rows[i].name);
      assert DeclaredAt(p, t, rows[i].name) && slots[i] == t + 2;
      forall j | 0 <= j < |rows| ensures slots[j] != slots[i] + 1 && slots[i] != slots[j] + 1 {
        SlotsApart(p, rows, j, i);
        SlotsApart(p, rows, i, j);
      }
      assert slots[i] + 1 !in slots && (slots[i] == u + 1 ==> u !in slots);
    }
  }
}
