/** The managed block of a worktree's `.env` file (scripts/compose-identity.ts). */
module ComposeEnv {
  import opened Text

  const BLOCK_BEGIN := "# >>> fleet-compose-identity (managed; do not edit) >>>"
  const BLOCK_END := "# <<< fleet-compose-identity <<<"
  const PORT_NAMES: seq<string> :=
    ["API", "OPS_WEB", "OAUTH", "POSTGRES", "REDIS", "S3", "EXPO_METRO", "EXPO_DEV", "EXPO_DEV2"]

  datatype Identity = Identity(key: string, project: string, ports: seq<nat>)

  // --------------------------------------------------------------- port blocks

  predicate IsHex(c: char) {
    '0' <= c <= '9' || 'a' <= c <= 'f'
  }

  /** A worktree key: twelve lower-case hex digits of an opaque hash. */
  predicate IsKey(key: string) {
    |key| == 12 && forall i | 0 <= i < 12 :: IsHex(key[i])
  }

  function HexDigit(c: char): nat
    requires IsHex(c)
  {
    if c <= '9' then c as int - 48 else c as int - 87
  }

  /** The slot a key's first four hex digits select. */
  function Slot(key: string): nat
    requires IsKey(key)
  {
    (HexDigit(key[0]) * 4096 + HexDigit(key[1]) * 256 + HexDigit(key[2]) * 16 + HexDigit(key[3])) % 480
  }

  function PortAt(key: string, i: nat): nat
    requires IsKey(key)
  {
    20000 + Slot(key) * 20 + i
  }

  function PortBlock(key: string): seq<nat>
    requires IsKey(key)
  {
    seq(|PORT_NAMES|, i requires 0 <= i => PortAt(key, i))
  }

  function IdentityFor(key: string): Identity
    requires IsKey(key)
  {
    Identity(key, "fleet-" + key, PortBlock(key))
  }

  /** Two worktrees share all nine ports, name by name, or share none; which of the two
      depends on the slot alone, so distinct keys can collide. */
  lemma PortBlocksIdenticalOrDisjoint(k1: string, k2: string)
    requires IsKey(k1) && IsKey(k2)
    ensures |PortBlock(k1)| == 9
    ensures forall p | p in PortBlock(k1) :: 20000 <= p < 29600
    ensures PortBlock(k1) == PortBlock(k2) <==> Slot(k1) == Slot(k2)
    ensures (forall p :: p !in PortBlock(k1) || p !in PortBlock(k2)) <==> Slot(k1) != Slot(k2)
    ensures forall i, j | 0 <= i < j < 9 :: PortBlock(k1)[i] != PortBlock(k1)[j]
  {
    assert PortBlock(k1)[0] == PortAt(k1, 0) && PortBlock(k2)[0] == PortAt(k2, 0);
    assert Slot(k1) == Slot(k2) ==> PortBlock(k1) == PortBlock(k2);
    if Slot(k1) == Slot(k2) {
      assert PortBlock(k1)[0] in PortBlock(k1) && PortBlock(k1)[0] in PortBlock(k2);
    }
  }

  // ----------------------------------------------------------------- the block

  function PortLine(name: string, port: nat): string {
    "FLEET_PORT_" + name + "=" + Decimal(port)
  }

  predicate Proper(id: Identity) {
    '#' !in id.key && '#' !in id.project && |id.ports| == |PORT_NAMES|
  }

  function PortLines(id: Identity, n: nat): (lines: seq<string>)
    requires Proper(id) && n <= |PORT_NAMES|
  {
    seq(n, i requires 0 <= i < n => PortLine(PORT_NAMES[i], id.ports[i]))
  }

  function MiddleLines(id: Identity): seq<string>
    requires Proper(id)
  {
    ["FLEET_WORKTREE_KEY=" + id.key, "FLEET_COMPOSE_PROJECT=" + id.project] + PortLines(id, |PORT_NAMES|)
  }

  function Block(id: Identity): string
    requires Proper(id)
  {
    Join([BLOCK_BEGIN] + MiddleLines(id) + [BLOCK_END], NL)
  }

  method RenderBlock(id: Identity) returns (block: string)
    requires Proper(id)
    ensures block == Block(id)
  {
    var lines := [BLOCK_BEGIN, "FLEET_WORKTREE_KEY=" + id.key, "FLEET_COMPOSE_PROJECT=" + id.project];
    for i := 0 to |PORT_NAMES|
      invariant lines == [BLOCK_BEGIN, "FLEET_WORKTREE_KEY=" + id.key, "FLEET_COMPOSE_PROJECT=" + id.project]
                         + PortLines(id, i)
    {
      assert PortLines(id, i + 1) == PortLines(id, i) + [PortLine(PORT_NAMES[i], id.ports[i])];
      lines := lines + [PortLine(PORT_NAMES[i], id.ports[i])];
    }
    lines := lines + [BLOCK_END];
    assert lines == [BLOCK_BEGIN] + MiddleLines(id) + [BLOCK_END];
    block := Join(lines, NL);
  }

  lemma IdentityForIsProper(key: string)
    requires IsKey(key)
    ensures Proper(IdentityFor(key))
  {
  }

  // ------------------------------------------------- the block, line by line

  /** `c` is the lower-case hex digit of value `d`. */
  predicate IsDigit(c: char, d: nat) {
    d < 16 && c == "0123456789abcdef"[d]
  }

  /** The number `n` that the first four characters of a key spell in base sixteen. */
  ghost predicate Spells(key: string, n: nat) {
    |key| >= 4
    && exists a: nat, b: nat, c: nat, d: nat :: SpelledBy(key, a, b, c, d) && n == ((a * 16 + b) * 16 + c) * 16 + d
  }

  predicate SpelledBy(key: string, a: nat, b: nat, c: nat, d: nat)
    requires |key| >= 4
  {
    IsDigit(key[0], a) && IsDigit(key[1], b) && IsDigit(key[2], c) && IsDigit(key[3], d)
  }

  /** The nine port lines, from the base port up. */
  function PortsFrom(base: nat): seq<string> {
    ["FLEET_PORT_API=" + Decimal(base), "FLEET_PORT_OPS_WEB=" + Decimal(base + 1),
     "FLEET_PORT_OAUTH=" + Decimal(base + 2), "FLEET_PORT_POSTGRES=" + Decimal(base + 3),
     "FLEET_PORT_REDIS=" + Decimal(base + 4), "FLEET_PORT_S3=" + Decimal(base + 5),
     "FLEET_PORT_EXPO_METRO=" + Decimal(base + 6), "FLEET_PORT_EXPO_DEV=" + Decimal(base + 7),
     "FLEET_PORT_EXPO_DEV2=" + Decimal(base + 8)]
  }

  lemma DigitIs(c: char, d: nat)
    requires IsDigit(c, d)
    ensures IsHex(c) && HexDigit(c) == d
  {
  }

  lemma SlotOf(key: string, a: nat, b: nat, c: nat, d: nat)
    requires IsKey(key) && SpelledBy(key, a, b, c, d)
    ensures Slot(key) == (((a * 16 + b) * 16 + c) * 16 + d) % 480
  {
    DigitIs(key[0], a);
    DigitIs(key[1], b);
    DigitIs(key[2], c);
    DigitIs(key[3], d);
    hide IsDigit, HexDigit, IsHex;
    assert a * 4096 + b * 256 + c * 16 + d == ((a * 16 + b) * 16 + c) * 16 + d;
  }

  lemma SlotIs(key: string, n: nat)
    requires IsKey(key) && Spells(key, n)
    ensures Slot(key) == n % 480
  {
    hide IsKey, Slot, SpelledBy;
    var a: nat, b: nat, c: nat, d: nat :|
      SpelledBy(key, a, b, c, d) && n == ((a * 16 + b) * 16 + c) * 16 + d;
    SlotOf(key, a, b, c, d);
  }

  lemma EveryKeySpells(key: string) returns (n: nat)
    requires IsKey(key)
    ensures Spells(key, n)
  {
    var a, b, c, d := HexDigit(key[0]), HexDigit(key[1]), HexDigit(key[2]), HexDigit(key[3]);
    n := ((a * 16 + b) * 16 + c) * 16 + d;
    assert SpelledBy(key, a, b, c, d);
  }

  lemma PortLinesAre(key: string, n: nat)
    requires IsKey(key) && Spells(key, n)
    ensures PortLines(IdentityFor(key), |PORT_NAMES|) == PortsFrom(20000 + n % 480 * 20)
  {
    SlotIs(key, n);
    hide Decimal, Slot;
    var base := 20000 + n % 480 * 20;
    var lines := PortLines(IdentityFor(key), |PORT_NAMES|);
    forall i | 0 <= i < 9 ensures lines[i] == PortLine(PORT_NAMES[i], base + i) {}
    hide Spells, IsKey;
    PortTexts(base);
  }

  lemma PortTexts(base: nat)
    ensures |PORT_NAMES| == 9
    ensures forall i | 0 <= i < 9 :: PortLine(PORT_NAMES[i], base + i) == PortsFrom(base)[i]
  {
    hide Decimal;
    assert "FLEET_PORT_" + "API" + "=" == "FLEET_PORT_API=";
    assert "FLEET_PORT_" + "OPS_WEB" + "=" == "FLEET_PORT_OPS_WEB=";
    assert "FLEET_PORT_" + "OAUTH" + "=" == "FLEET_PORT_OAUTH=";
    assert "FLEET_PORT_" + "POSTGRES" + "=" == "FLEET_PORT_POSTGRES=";
    assert "FLEET_PORT_" + "REDIS" + "=" == "FLEET_PORT_REDIS=";
    assert "FLEET_PORT_" + "S3" + "=" == "FLEET_PORT_S3=";
    assert "FLEET_PORT_" + "EXPO_METRO" + "=" == "FLEET_PORT_EXPO_METRO=";
    assert "FLEET_PORT_" + "EXPO_DEV" + "=" == "FLEET_PORT_EXPO_DEV=";
    assert "FLEET_PORT_" + "EXPO_DEV2" + "=" == "FLEET_PORT_EXPO_DEV2=";
  }

  lemma PortOnOneLine(name: string, port: nat)
    requires name in PORT_NAMES
    ensures '\n' !in PortLine(name, port)
  {
    hide Decimal;
    assert '\n' !in Decimal(port);
    assert '\n' !in name;
  }

  lemma MarkersOnOneLine()
    ensures '\n' !in BLOCK_BEGIN && '\n' !in BLOCK_END
  {
    BeginPieces();
    EndPieces();
    hide BLOCK_BEGIN, BLOCK_END;
  }

  lemma KeyOnOneLine(key: string)
    requires IsKey(key)
    ensures '\n' !in "FLEET_WORKTREE_KEY=" + key && '\n' !in "FLEET_COMPOSE_PROJECT=" + ("fleet-" + key)
  {
    assert '\n' !in key;
    hide IsKey;
  }

  lemma BlockLines(key: string)
    requires IsKey(key)
    ensures var id := IdentityFor(key);
            Split(Block(id), "\n") ==
            [BLOCK_BEGIN, "FLEET_WORKTREE_KEY=" + key, "FLEET_COMPOSE_PROJECT=" + ("fleet-" + key)]
            + PortLines(id, |PORT_NAMES|) + [BLOCK_END]
  {
    KeyOnOneLine(key);
    MarkersOnOneLine();
    var id := IdentityFor(key);
    var ports := PortLines(id, |PORT_NAMES|);
    forall i | 0 <= i < |ports| ensures '\n' !in ports[i] {
      PortOnOneLine(PORT_NAMES[i], id.ports[i]);
    }
    var lines := [BLOCK_BEGIN] + MiddleLines(id) + [BLOCK_END];
    hide Split, Join, IsKey, PortLines, PORT_NAMES, BLOCK_BEGIN, BLOCK_END, PortBlock;
    assert lines == [BLOCK_BEGIN, "FLEET_WORKTREE_KEY=" + key, "FLEET_COMPOSE_PROJECT=" + ("fleet-" + key)]
                    + ports + [BLOCK_END];
    SplitJoin(lines, '\n');
  }

  /** The block of a worktree, line by line. The base port is 20000 and twenty for each slot, the slot
      being the first four hex digits of the key modulo 480, and each name has its own offset. */
  lemma BlockIs(key: string, n: nat)
    requires IsKey(key) && Spells(key, n)
    ensures Split(Block(IdentityFor(key)), "\n") ==
            ["# >>> fleet-compose-identity (managed; do not edit) >>>", "FLEET_WORKTREE_KEY=" + key,
             "FLEET_COMPOSE_PROJECT=" + ("fleet-" + key)]
            + PortsFrom(20000 + n % 480 * 20) + ["# <<< fleet-compose-identity <<<"]
  {
    BlockLines(key);
    PortLinesAre(key, n);
    hide Split, Block, Spells, PortsFrom, PortLines;
  }

  // ----------------------------------------------------------------- injection

  function Separator(content: string): string {
    if |content| == 0 || content[|content| - 1] == '\n' then "" else NL
  }

  function InjectEnv(content: string, id: Identity): string
    requires Proper(id)
  {
    var begin := Index(content, BLOCK_BEGIN);
    var end := Index(content, BLOCK_END);
    if begin >= 0 && end > begin then
      content[..begin] + Block(id) + content[end + |BLOCK_END|..]
    else
      content + Separator(content) + Block(id) + NL
  }

  predicate HasMarker(content: string, marker: string) {
    Index(content, marker) != -1
  }

  /** No managed marker at all, or the first begin marker before the first end marker. */
  predicate Clean(content: string) {
    || (!HasMarker(content, BLOCK_BEGIN) && !HasMarker(content, BLOCK_END))
    || (HasMarker(content, BLOCK_BEGIN) && Index(content, BLOCK_BEGIN) < Index(content, BLOCK_END))
  }

  // ------------------------------------------------------------- marker anatomy

  /** A marker has its only '#' in front, so no marker overlaps another occurrence. */
  predicate Marker(m: string) {
    |m| >= 3 && m[0] == '#' && '#' !in m[1..]
  }

  /** The markers in pieces short enough to be looked at character by character. */
  lemma BeginPieces()
    ensures BLOCK_BEGIN == "# >>> fleet-comp" + "ose-identity " + "(managed; do n" + "ot edit) >>>"
  {
  }

  lemma EndPieces()
    ensures BLOCK_END == "# <<< fleet-comp" + "ose-identity <<<"
  {
  }

  lemma MarkersAreMarkers()
    ensures Marker(BLOCK_BEGIN) && Marker(BLOCK_END)
    ensures BLOCK_BEGIN[2] == '>' && BLOCK_END[2] == '<'
    ensures |BLOCK_END| <= |BLOCK_BEGIN|
    ensures BLOCK_BEGIN[|BLOCK_BEGIN| - 1] != '\n' && BLOCK_END[|BLOCK_END| - 1] != '\n'
  {
    BeginPieces();
    EndPieces();
    hide BLOCK_BEGIN, BLOCK_END;
  }

  /** Where a marker occurs there is a '#', and none in the rest of it. */
  lemma MarkerAt(s: string, m: string, i: int)
    requires Marker(m) && OccursAt(s, m, i)
    ensures s[i] == '#' && s[i + 2] == m[2]
    ensures forall k | i < k < i + |m| :: s[k] != '#'
  {
    assert s[i] == s[i..i + |m|][0] && s[i + 2] == s[i..i + |m|][2];
    forall k | i < k < i + |m| ensures s[k] != '#' {
      assert s[k] == s[i..i + |m|][k - i] == m[1..][k - i - 1];
    }
  }

  /** A marker starting in `a` cannot reach into text that starts with '#'. */
  lemma NoStraddle(a: string, rest: string, m: string, i: nat)
    requires Marker(m) && i < |a|
    requires rest != "" && rest[0] == '#'
    requires OccursAt(a + rest, m, i)
    ensures OccursAt(a, m, i)
  {
    MarkerAt(a + rest, m, i);
    assert (a + rest)[|a|] == '#';
    assert (a + rest)[i..i + |m|] == a[i..i + |m|];
  }

  // ------------------------------------------------ where the markers end up

  /** The middle of a block carries no '#', so its only markers are its two ends. */
  lemma LinesHaveNoHash(id: Identity)
    requires Proper(id)
    ensures forall i | 0 <= i < |MiddleLines(id)| :: '#' !in MiddleLines(id)[i]
  {
    var lines := MiddleLines(id);
    forall i | 0 <= i < |lines| ensures '#' !in lines[i] {
      if i >= 2 {
        assert lines[i] == PortLine(PORT_NAMES[i - 2], id.ports[i - 2]);
        assert '#' !in PORT_NAMES[i - 2];
      }
    }
  }

  lemma BlockShape(id: Identity) returns (middle: string)
    requires Proper(id)
    ensures Block(id) == BLOCK_BEGIN + middle + BLOCK_END && '#' !in middle
  {
    hide PortLine, BLOCK_BEGIN, BLOCK_END, Join;
    var lines := MiddleLines(id);
    LinesHaveNoHash(id);
    var tail := JoinMiddle(lines);
    middle := NL + tail + NL;
    JoinAround(BLOCK_BEGIN, lines, BLOCK_END);
  }

  lemma {:induction false} JoinMiddle(lines: seq<string>) returns (text: string)
    requires |lines| >= 1 && forall i | 0 <= i < |lines| :: '#' !in lines[i]
    ensures text == Join(lines, NL) && '#' !in text
  {
    if |lines| == 1 {
      text := lines[0];
    } else {
      var rest := JoinMiddle(lines[1..]);
      text := lines[0] + NL + rest;
    }
  }

  lemma JoinFirst(first: string, lines: seq<string>)
    requires |lines| >= 1
    ensures Join([first] + lines, NL) == first + NL + Join(lines, NL)
  {
    assert ([first] + lines)[1..] == lines;
  }

  lemma Regroup(first: string, text: string, last: string)
    ensures first + NL + (text + NL + last) == first + (NL + text + NL) + last
  {
    assert first + NL + (text + NL + last) == first + (NL + (text + NL + last));
    assert NL + (text + NL + last) == (NL + text + NL) + last;
  }

  lemma JoinAround(first: string, lines: seq<string>, last: string)
    requires |lines| >= 1
    ensures Join([first] + lines + [last], NL) == first + (NL + Join(lines, NL) + NL) + last
  {
    JoinLast(lines, last);
    JoinFirst(first, lines + [last]);
    assert [first] + lines + [last] == [first] + (lines + [last]);
    Regroup(first, Join(lines, NL), last);
  }

  lemma {:induction false} JoinLast(lines: seq<string>, last: string)
    requires |lines| >= 1
    ensures Join(lines + [last], NL) == Join(lines, NL) + NL + last
  {
    if |lines| > 1 {
      JoinLast(lines[1..], last);
      assert (lines + [last])[1..] == lines[1..] + [last];
    } else {
      assert (lines + [last])[1..] == [last];
    }
  }

  /** No occurrence of the marker begins inside `before` when a '#' follows it. */
  predicate Free(before: string, m: string) {
    forall j | 0 <= j < |before| :: !OccursAt(before, m, j)
  }

  lemma NoMarkerIsFree(s: string, m: string)
    ensures Index(s, m) == -1 ==> Free(s, m)
    ensures Index(s, m) >= 0 ==> Free(s[..Index(s, m)], m)
  {
    var b := Index(s, m);
    if b >= 0 {
      forall j | 0 <= j < b ensures !OccursAt(s[..b], m, j) {
        assert !OccursAt(s, m, j);
        assert j + |m| <= b ==> s[..b][j..j + |m|] == s[j..j + |m|];
      }
    }
  }

  /** After `before`, the block's begin marker is the first one in the text. */
  lemma BeginFound(before: string, id: Identity, after: string)
    requires Proper(id) && Free(before, BLOCK_BEGIN)
    ensures Index(before + Block(id) + after, BLOCK_BEGIN) == |before|
  {
    MarkersAreMarkers();
    var middle := BlockShape(id);
    var s := before + Block(id) + after;
    var rest := Block(id) + after;
    assert s == before + rest && rest[0] == '#';
    assert s[|before|..|before| + |BLOCK_BEGIN|] == BLOCK_BEGIN;
    forall j | 0 <= j < |before| ensures !OccursAt(s, BLOCK_BEGIN, j) {
      if OccursAt(s, BLOCK_BEGIN, j) { NoStraddle(before, rest, BLOCK_BEGIN, j); }
    }
    IndexIs(s, BLOCK_BEGIN, |before|);
  }

  /** And the block's own end marker is the first end marker in the text. */
  lemma EndFound(before: string, id: Identity, after: string)
    requires Proper(id) && Free(before, BLOCK_END)
    ensures Index(before + Block(id) + after, BLOCK_END) == |before| + |Block(id)| - |BLOCK_END|
  {
    hide Block, Proper, Index, BLOCK_BEGIN, BLOCK_END;
    MarkersAreMarkers();
    var middle := BlockShape(id);
    var s := before + Block(id) + after;
    var rest := Block(id) + after;
    var at := |before| + |Block(id)| - |BLOCK_END|;
    assert s == before + rest && rest[0] == '#';
    assert s[at..at + |BLOCK_END|] == BLOCK_END;
    HashOnlyInFront(BLOCK_BEGIN, middle);
    forall j | 0 <= j < at ensures !OccursAt(s, BLOCK_END, j) {
      if j < |before| {
        if OccursAt(s, BLOCK_END, j) { NoStraddle(before, rest, BLOCK_END, j); }
      } else {
        assert s[j] == (BLOCK_BEGIN + middle)[j - |before|];
        assert j == |before| ==> s[j + 2] == BLOCK_BEGIN[2];
        NoMarkerAt(s, BLOCK_END, j);
      }
    }
    IndexIs(s, BLOCK_END, at);
  }

  lemma HashOnlyInFront(m: string, middle: string)
    requires Marker(m) && '#' !in middle
    ensures forall k | 0 < k < |m + middle| :: (m + middle)[k] != '#'
  {
    forall k | 0 < k < |m + middle| ensures (m + middle)[k] != '#' {
      if k < |m| {
        assert (m + middle)[k] == m[1..][k - 1];
      } else {
        assert (m + middle)[k] == middle[k - |m|];
      }
    }
  }

  lemma NoMarkerAt(s: string, m: string, i: nat)
    requires Marker(m) && i + 2 < |s|
    requires s[i] != '#' || s[i + 2] != m[2]
    ensures !OccursAt(s, m, i)
  {
    if OccursAt(s, m, i) { MarkerAt(s, m, i); }
  }

  /** Injecting into text that already carries one block swaps exactly that block. */
  lemma InjectSwaps(before: string, prior: Identity, after: string, id: Identity)
    requires Proper(prior) && Proper(id)
    requires Free(before, BLOCK_BEGIN) && Free(before, BLOCK_END)
    ensures InjectEnv(before + Block(prior) + after, id) == before + Block(id) + after
  {
    MarkersAreMarkers();
    var middle := BlockShape(prior);
    BeginFound(before, prior, after);
    EndFound(before, prior, after);
    var s := before + Block(prior) + after;
    assert s[..|before|] == before;
    assert s[|before| + |Block(prior)|..] == after;
  }

  /** What stands before and after the block once it is in. */
  function Before(content: string): string {
    if Clean(content) && HasMarker(content, BLOCK_BEGIN) then content[..Index(content, BLOCK_BEGIN)]
    else content + Separator(content)
  }

  function After(content: string): string {
    if Clean(content) && HasMarker(content, BLOCK_BEGIN)
    then content[Index(content, BLOCK_END) + |BLOCK_END|..]
    else NL
  }

  lemma BeforeIsFree(content: string)
    requires Clean(content)
    ensures Free(Before(content), BLOCK_BEGIN) && Free(Before(content), BLOCK_END)
  {
    MarkersAreMarkers();
    if HasMarker(content, BLOCK_BEGIN) {
      NoMarkerIsFree(content, BLOCK_BEGIN);
      NoMarkerIsFree(content, BLOCK_END);
      var b, e := Index(content, BLOCK_BEGIN), Index(content, BLOCK_END);
      forall j | 0 <= j < b ensures !OccursAt(content[..b], BLOCK_END, j) {
        assert !OccursAt(content, BLOCK_END, j);
        assert j + |BLOCK_END| <= b ==>
            content[..b][j..j + |BLOCK_END|] == content[j..j + |BLOCK_END|];
      }
    } else {
      FreeWithSeparator(content, BLOCK_BEGIN);
      FreeWithSeparator(content, BLOCK_END);
    }
  }

  lemma FreeWithSeparator(content: string, m: string)
    requires !HasMarker(content, m) && |m| >= 1 && m[|m| - 1] != '\n'
    ensures Free(content + Separator(content), m)
  {
    var s := content + Separator(content);
    forall j | 0 <= j < |s| ensures !OccursAt(s, m, j) {
      assert !OccursAt(content, m, j);
      if j + |m| <= |content| {
        assert s[j..j + |m|] == content[j..j + |m|];
      } else if j + |m| <= |s| {
        assert s[j..j + |m|][|m| - 1] == s[|s| - 1] == '\n';
      }
    }
  }

  // -------------------------------------------------------------- the main laws

  /** A later injection overrides an earlier one exactly. */
  lemma LaterInjectionOverrides(content: string, a: Identity, b: Identity)
    requires Clean(content) && Proper(a) && Proper(b)
    ensures InjectEnv(InjectEnv(content, a), b) == InjectEnv(content, b)
  {
    BeforeIsFree(content);
    assert InjectEnv(content, a) == Before(content) + Block(a) + After(content);
    assert InjectEnv(content, b) == Before(content) + Block(b) + After(content);
    InjectSwaps(Before(content), a, After(content), b);
  }

  lemma AroundTheBlock(content: string, id: Identity)
    requires Clean(content) && Proper(id)
    ensures var r := InjectEnv(content, id);
            var b, e := Index(r, BLOCK_BEGIN), Index(r, BLOCK_END);
            && 0 <= b < e
            && r[b..e + |BLOCK_END|] == Block(id) && r[..b] == Before(content) && r[e + |BLOCK_END|..] == After(content)
  {
    InjectedAround(content, id);
    BeforeIsFree(content);
    BeginFound(Before(content), id, After(content));
    EndFound(Before(content), id, After(content));
    BlockHoldsMarkers(id);
    hide Block, Index, InjectEnv, Proper, BLOCK_BEGIN, BLOCK_END, Free, Before, After, Clean;
    ThreeParts(Before(content), Block(id), After(content));
  }

  lemma SeparatorIs(content: string)
    ensures content + Separator(content) ==
            if content == "" || content[|content| - 1] == '\n' then content else content + "\n"
  {
  }

  /** Everything outside the managed block survives: an unmarked file is a prefix of the
      result, and a marked one keeps its text before the first begin marker and after the
      first end marker, with the new block between. A later block of the file is left as it is. */
  lemma RestIsUntouched(content: string, id: Identity)
    requires Clean(content) && Proper(id)
    ensures var r := InjectEnv(content, id);
            var b, e := Index(r, BLOCK_BEGIN), Index(r, BLOCK_END);
            && 0 <= b < e
            && r[b..e + |BLOCK_END|] == Block(id)
            && (!HasMarker(content, BLOCK_BEGIN) ==>
                  && r[e + |BLOCK_END|..] == "\n"
                  && r[..b] == if content == "" || content[|content| - 1] == '\n' then content else content + "\n")
            && (HasMarker(content, BLOCK_BEGIN) ==>
                  && r[..b] == content[..Index(content, BLOCK_BEGIN)]
                  && r[e + |BLOCK_END|..] == content[Index(content, BLOCK_END) + |BLOCK_END|..])
  {
    AroundTheBlock(content, id);
    WhatIsAround(content);
    SeparatorIs(content);
    hide Block, Index, InjectEnv, Proper, BLOCK_BEGIN, BLOCK_END, Separator, Before, After, Clean, HasMarker;
  }

  lemma InjectedAround(content: string, id: Identity)
    requires Clean(content) && Proper(id)
    ensures InjectEnv(content, id) == Before(content) + Block(id) + After(content)
  {
    hide Block, Index, BLOCK_BEGIN, BLOCK_END;
    var sep, block := Separator(content), Block(id);
    assert content + sep + block + NL == (content + sep) + block + NL;
  }

  lemma BlockHoldsMarkers(id: Identity)
    requires Proper(id)
    ensures |Block(id)| > |BLOCK_END|
  {
    hide Block;
    var middle := BlockShape(id);
    MarkersNonEmpty();
  }

  lemma ThreeParts(a: string, b: string, c: string)
    ensures (a + b + c)[|a|..|a| + |b|] == b && (a + b + c)[..|a|] == a && (a + b + c)[|a| + |b|..] == c
  {
  }

  /** What stands before and after the block in the result. */
  lemma WhatIsAround(content: string)
    requires Clean(content)
    ensures !HasMarker(content, BLOCK_BEGIN) ==> Before(content) == content + Separator(content) && After(content) == NL
    ensures HasMarker(content, BLOCK_BEGIN) ==>
              && Index(content, BLOCK_BEGIN) >= 0 && Index(content, BLOCK_END) >= 0
              && Index(content, BLOCK_END) + |BLOCK_END| <= |content|
              && Before(content) == content[..Index(content, BLOCK_BEGIN)]
              && After(content) == content[Index(content, BLOCK_END) + |BLOCK_END|..]
  {
    hide Index, BLOCK_BEGIN, BLOCK_END;
  }

  /** A first occurrence keeps its place when text is appended. */
  lemma IndexInPrefix(s: string, more: string, m: string)
    requires m != "" && Index(s, m) >= 0
    ensures Index(s + more, m) == Index(s, m)
  {
    var i := Index(s, m);
    assert (s + more)[i..i + |m|] == s[i..i + |m|];
    forall j | 0 <= j < i ensures !OccursAt(s + more, m, j) {
      assert !OccursAt(s, m, j);
      assert (s + more)[j..j + |m|] == s[j..j + |m|];
    }
    IndexIs(s + more, m, i);
  }

  /** The two markers never start at the same place. */
  lemma MarkersApart(s: string, i: int)
    ensures !(OccursAt(s, BLOCK_BEGIN, i) && OccursAt(s, BLOCK_END, i))
  {
    MarkersAreMarkers();
    if OccursAt(s, BLOCK_BEGIN, i) {
      MarkerAt(s, BLOCK_BEGIN, i);
      if OccursAt(s, BLOCK_END, i) {
        MarkerAt(s, BLOCK_END, i);
      }
    }
  }

  /** A run that does not find begin before end appends, so it never stands still. */
  lemma AppendGrows(content: string, id: Identity)
    requires Proper(id)
    requires !(0 <= Index(content, BLOCK_BEGIN) < Index(content, BLOCK_END))
    ensures InjectEnv(content, id) == content + (Separator(content) + Block(id) + NL)
    ensures InjectEnv(content, id) == (content + Separator(content)) + Block(id) + NL
    ensures |InjectEnv(content, id)| > |content|
  {
    hide Block, Index, BLOCK_BEGIN, BLOCK_END;
    var sep, block := Separator(content), Block(id);
    assert content + sep + block + NL == content + (sep + block + NL);
  }

  lemma UncleanOrder(content: string)
    requires !Clean(content)
    ensures !(0 <= Index(content, BLOCK_BEGIN) < Index(content, BLOCK_END))
    ensures HasMarker(content, BLOCK_BEGIN) && HasMarker(content, BLOCK_END) ==>
              Index(content, BLOCK_BEGIN) > Index(content, BLOCK_END)
  {
    MarkersApart(content, Index(content, BLOCK_BEGIN));
  }

  lemma MarkersNonEmpty()
    ensures BLOCK_BEGIN != "" && BLOCK_BEGIN[|BLOCK_BEGIN| - 1] != '\n'
    ensures BLOCK_END != "" && BLOCK_END[|BLOCK_END| - 1] != '\n'
  {
  }

  /** With the markers in the wrong order, or only an end marker, every run appends. */
  lemma AppendsAgain(content: string, id: Identity)
    requires Proper(id) && !Clean(content) && HasMarker(content, BLOCK_END)
    ensures InjectEnv(InjectEnv(content, id), id) != InjectEnv(content, id)
  {
    MarkersNonEmpty();
    UncleanOrder(content);
    AppendGrows(content, id);
    var more := Separator(content) + Block(id) + NL;
    IndexInPrefix(content, more, BLOCK_END);
    if HasMarker(content, BLOCK_BEGIN) {
      IndexInPrefix(content, more, BLOCK_BEGIN);
    } else {
      FreeWithSeparator(content, BLOCK_BEGIN);
      BeginFound(content + Separator(content), id, NL);
    }
    AppendGrows(InjectEnv(content, id), id);
  }

  /** With only a begin marker, the second run discards the text between it and the block
      the first run appended. */
  lemma DiscardsTail(content: string, id: Identity)
    requires Proper(id) && HasMarker(content, BLOCK_BEGIN) && !HasMarker(content, BLOCK_END)
    ensures |InjectEnv(InjectEnv(content, id), id)| < |InjectEnv(content, id)|
  {
    MarkersNonEmpty();
    AppendGrows(content, id);
    IndexInPrefix(content, Separator(content) + Block(id) + NL, BLOCK_BEGIN);
    FreeWithSeparator(content, BLOCK_END);
    EndFound(content + Separator(content), id, NL);
    SwapLength(InjectEnv(content, id), id);
    BlockLongerThanEnd(id);
  }

  lemma BlockLongerThanEnd(id: Identity)
    requires Proper(id)
    ensures |BLOCK_END| <= |Block(id)|
  {
    var middle := BlockShape(id);
  }

  lemma SwapLength(content: string, id: Identity)
    requires Proper(id)
    requires 0 <= Index(content, BLOCK_BEGIN) < Index(content, BLOCK_END)
    ensures |InjectEnv(content, id)| ==
            Index(content, BLOCK_BEGIN) + |Block(id)| + |content| - Index(content, BLOCK_END) - |BLOCK_END|
  {
  }

  /** On a file with stray markers a second run changes the result of the first. */
  lemma StrayMarkersDrift(content: string, id: Identity)
    requires Proper(id) && !Clean(content)
    ensures InjectEnv(InjectEnv(content, id), id) != InjectEnv(content, id)
  {
    if HasMarker(content, BLOCK_END) {
      AppendsAgain(content, id);
    } else {
      DiscardsTail(content, id);
    }
  }

  /** The promise "idempotent" holds on exactly the clean files. */
  lemma IdempotentIffClean(content: string, id: Identity)
    requires Proper(id)
    ensures InjectEnv(InjectEnv(content, id), id) == InjectEnv(content, id) <==> Clean(content)
  {
    if Clean(content) {
      LaterInjectionOverrides(content, id, id);
    } else {
      StrayMarkersDrift(content, id);
    }
  }

  lemma Between(before: string, x: string, y: string, after: string)
    requires before + x + after == before + y + after
    ensures x == y
  {
    assert |x| == |y|;
    assert x == (before + x + after)[|before|..|before| + |x|];
    assert y == (before + y + after)[|before|..|before| + |y|];
  }

  lemma SameInjectionSameBlock(content: string, a: Identity, b: Identity)
    requires Proper(a) && Proper(b) && InjectEnv(content, a) == InjectEnv(content, b)
    ensures Block(a) == Block(b)
  {
    hide Block, BLOCK_BEGIN, BLOCK_END, Index;
    var begin, end := Index(content, BLOCK_BEGIN), Index(content, BLOCK_END);
    if begin >= 0 && end > begin {
      Between(content[..begin], Block(a), Block(b), content[end + |BLOCK_END|..]);
    } else {
      Between(content + Separator(content), Block(a), Block(b), NL);
    }
  }

  lemma KeyInBlock(id: Identity) returns (rest: string)
    requires Proper(id)
    ensures Block(id) == (BLOCK_BEGIN + NL + "FLEET_WORKTREE_KEY=") + id.key + rest
  {
    hide PortLine, BLOCK_BEGIN, BLOCK_END, Join;
    var first, others := "FLEET_WORKTREE_KEY=" + id.key, MiddleLines(id)[1..] + [BLOCK_END];
    assert [BLOCK_BEGIN] + MiddleLines(id) + [BLOCK_END] == [BLOCK_BEGIN] + ([first] + others);
    JoinFirst(BLOCK_BEGIN, [first] + others);
    JoinFirst(first, others);
    rest := NL + Join(others, NL);
    assert BLOCK_BEGIN + NL + (first + NL + Join(others, NL))
           == (BLOCK_BEGIN + NL + "FLEET_WORKTREE_KEY=") + id.key + rest;
  }

  lemma SameBlockSameKey(a: Identity, b: Identity)
    requires Proper(a) && Proper(b) && |a.key| == |b.key| && Block(a) == Block(b)
    ensures a.key == b.key
  {
    hide Block, BLOCK_BEGIN;
    var front := BLOCK_BEGIN + NL + "FLEET_WORKTREE_KEY=";
    var r := KeyInBlock(a);
    var t := KeyInBlock(b);
    assert a.key == (front + a.key + r)[|front|..|front| + |a.key|];
    assert b.key == (front + b.key + t)[|front|..|front| + |b.key|];
  }

  /** The laws for the identities the script itself makes, from any two worktree keys: on a clean
      file the last injection is the only one that shows, and injecting twice is injecting once on
      clean files alone. */
  lemma KeyedInjections(content: string, k1: string, k2: string)
    requires IsKey(k1) && IsKey(k2)
    ensures Proper(IdentityFor(k1)) && Proper(IdentityFor(k2))
    ensures var a, b := IdentityFor(k1), IdentityFor(k2);
            && (Clean(content) ==> InjectEnv(InjectEnv(content, a), b) == InjectEnv(content, b))
            && (InjectEnv(InjectEnv(content, a), a) == InjectEnv(content, a) <==> Clean(content))
            && (InjectEnv(content, a) == InjectEnv(content, b) <==> k1 == k2)
  {
    hide InjectEnv, Clean, Block, Proper;
    IdentityForIsProper(k1);
    IdentityForIsProper(k2);
    var a, b := IdentityFor(k1), IdentityFor(k2);
    if Clean(content) { LaterInjectionOverrides(content, a, b); }
    IdempotentIffClean(content, a);
    if InjectEnv(content, a) == InjectEnv(content, b) {
      SameInjectionSameBlock(content, a, b);
      SameBlockSameKey(a, b);
    }
  }

  /** An input that breaks it: a file holding an orphan end marker grows on every run. */
  lemma OrphanEndMarkerGrows(id: Identity)
    requires Proper(id)
    ensures !Clean(BLOCK_END)
    ensures InjectEnv(InjectEnv(BLOCK_END, id), id) != InjectEnv(BLOCK_END, id)
  {
    MarkersAreMarkers();
    assert BLOCK_END[0..|BLOCK_END|] == BLOCK_END;
    assert OccursAt(BLOCK_END, BLOCK_END, 0);
    forall i ensures !OccursAt(BLOCK_END, BLOCK_BEGIN, i) {
      MarkersApart(BLOCK_END, 0);
    }
    StrayMarkersDrift(BLOCK_END, id);
  }
}
