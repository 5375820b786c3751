/** The cache simulator: tag words with two flag bits, replacement by a shift register, and a
    next level that is asked for every line that misses and given every dirty line that is evicted. */
module CacheSim {
  import opened Arith
  import opened Wrappers

  // ---------------------------------------------------------------------------------------
  // Tag words

  const DIRTY: nat := 0x4000_0000_0000_0000
  const VALID: nat := 0x8000_0000_0000_0000
  const WORDS: nat := 0x1_0000_0000_0000_0000

  predicate IsValid(w: nat) { VALID <= w < WORDS }
  predicate IsDirty(w: nat) { VALID + DIRTY <= w < WORDS }

  /** `w & ~(VALID | DIRTY)`. */
  function LineIn(w: nat): nat { w % DIRTY }

  /** `line | VALID`, the flag bits of `line` being clear. */
  function CleanWord(line: nat): nat { line + VALID }

  /** `w | DIRTY`. */
  function SetDirty(w: nat): nat { if (w / DIRTY) % 2 == 1 then w else w + DIRTY }

  /** `w & ~DIRTY`. */
  function ClearDirty(w: nat): nat { if (w / DIRTY) % 2 == 1 then w - DIRTY else w }

  /** An empty way holds 0. */
  predicate WordOk(w: nat) { w == 0 || IsValid(w) }

  lemma WordFacts(w: nat, line: nat)
    requires WordOk(w) && line < DIRTY
    ensures (ClearDirty(w) == CleanWord(line)) <==> (IsValid(w) && LineIn(w) == line)
    ensures IsValid(CleanWord(line)) && !IsDirty(CleanWord(line)) && LineIn(CleanWord(line)) == line
    ensures IsValid(w) ==> IsValid(SetDirty(w)) && IsDirty(SetDirty(w)) && LineIn(SetDirty(w)) == LineIn(w)
    ensures LineIn(w) < DIRTY
  {
    if IsValid(w) {
      if w < VALID + DIRTY {
        DivModUnique(w, DIRTY, 2, w - VALID);
        DivModUnique(w + DIRTY, DIRTY, 3, w - VALID);
      } else {
        DivModUnique(w, DIRTY, 3, w - VALID - DIRTY);
      }
    }
    DivModUnique(CleanWord(line), DIRTY, 2, line);
  }

  // ---------------------------------------------------------------------------------------
  // The two organisations

  /** An entry of the fully associative cache's ordered map. */
  datatype Entry = Entry(line: nat, word: nat)

  datatype Store =
    | SetAssociative(sets: nat, ways: nat, tags: seq<nat>)
    | FullyAssociative(capacity: nat, entries: seq<Entry>)

  function WordsOf(entries: seq<Entry>): (r: seq<nat>)
    ensures |r| == |entries|
  {
    seq(|entries|, i requires 0 <= i < |entries| => entries[i].word)
  }

  /** All the tag words, in either organisation. */
  function Words(s: Store): seq<nat> {
    match s
    case SetAssociative(_, _, tags) => tags
    case FullyAssociative(_, entries) => WordsOf(entries)
  }

  /** A line is held at most once. */
  ghost predicate AtMostOnce(words: seq<nat>) {
    forall i, j :: 0 <= i < j < |words| && IsValid(words[i]) && IsValid(words[j]) ==>
        LineIn(words[i]) != LineIn(words[j])
  }

  ghost predicate AllWordsOk(words: seq<nat>) {
    forall i :: 0 <= i < |words| ==> WordOk(words[i])
  }

  /** A line is only ever held in the set that it indexes to. */
  ghost predicate InOwnSet(s: Store)
    requires s.SetAssociative? && s.sets > 0 && s.ways > 0
  {
    forall k :: 0 <= k < |s.tags| && IsValid(s.tags[k]) ==> LineIn(s.tags[k]) % s.sets == k / s.ways
  }

  /** The ordered map's keys increase, and each entry holds its key's line. */
  ghost predicate Keyed(entries: seq<Entry>) {
    && (forall i, j :: 0 <= i < j < |entries| ==> entries[i].line < entries[j].line)
    && (forall i :: 0 <= i < |entries| ==> IsValid(entries[i].word) && LineIn(entries[i].word) == entries[i].line)
  }

  ghost predicate StoreOk(s: Store) {
    && AllWordsOk(Words(s)) && AtMostOnce(Words(s))
    && match s
       case SetAssociative(sets, ways, tags) => sets > 0 && ways > 0 && |tags| == sets * ways && InOwnSet(s)
       case FullyAssociative(capacity, entries) => capacity > 0 && |entries| <= capacity && Keyed(entries)
  }

  ghost function Lines(words: seq<nat>): set<nat> {
    set i | 0 <= i < |words| && IsValid(words[i]) :: LineIn(words[i])
  }

  ghost function DirtyLines(words: seq<nat>): set<nat> {
    set i | 0 <= i < |words| && IsDirty(words[i]) :: LineIn(words[i])
  }

  // ---------------------------------------------------------------------------------------
  // `check_tag` and `victimize`

  /** The first of `n` words from `base` whose tag is the one sought. */
  function FindWay(tags: seq<nat>, base: nat, n: nat, tag: nat): (r: Option<nat>)
    requires base + n <= |tags|
    ensures r.Some? ==> base <= r.value < base + n && ClearDirty(tags[r.value]) == tag
    ensures r.None? ==> forall k :: base <= k < base + n ==> ClearDirty(tags[k]) != tag
    decreases n
  {
    if n == 0 then None
    else if ClearDirty(tags[base]) == tag then Some(base)
    else FindWay(tags, base + 1, n - 1, tag)
  }

  function FindEntry(entries: seq<Entry>, line: nat, from: nat): (r: Option<nat>)
    requires from <= |entries|
    ensures r.Some? ==> from <= r.value < |entries| && entries[r.value].line == line
    ensures r.None? ==> forall k :: from <= k < |entries| ==> entries[k].line != line
    decreases |entries| - from
  {
    if from == |entries| then None
    else if entries[from].line == line then Some(from)
    else FindEntry(entries, line, from + 1)
  }

  /** `check_tag`: the position of the line's tag word, if it is held. */
  function CheckTag(s: Store, line: nat): Option<nat>
    requires s.SetAssociative? ==> s.sets > 0 && |s.tags| == s.sets * s.ways
  {
    match s
    case SetAssociative(sets, ways, tags) =>
      SetBounds(line, sets, ways);
      FindWay(tags, (line % sets) * ways, ways, CleanWord(line))
    case FullyAssociative(_, entries) => FindEntry(entries, line, 0)
  }

  lemma SetBounds(line: nat, sets: nat, ways: nat)
    requires sets > 0
    ensures (line % sets) * ways + ways <= sets * ways
  {
    MulLe(line % sets + 1, sets, ways);
    MulAddOne(line % sets, ways);
  }

  /** `lfsr_t::next`. */
  function LfsrNext(reg: bv32): bv32 {
    (reg >> 1) ^ (if reg & 1 == 1 then 0xd000_0001 else 0)
  }

  function Draw(reg: bv32, ways: nat): (way: nat)
    requires ways > 0
    ensures way < ways
  {
    (LfsrNext(reg) as int) % ways
  }

  /** Where a key goes in the ordered map. */
  function Position(entries: seq<Entry>, line: nat, from: nat): (r: nat)
    requires from <= |entries|
    ensures from <= r <= |entries|
    ensures forall k :: from <= k < r ==> entries[k].line < line
    ensures r < |entries| ==> entries[r].line >= line
    decreases |entries| - from
  {
    if from == |entries| || entries[from].line >= line then from else Position(entries, line, from + 1)
  }

  function Insert(entries: seq<Entry>, e: Entry): seq<Entry> {
    var p := Position(entries, e.line, 0);
    entries[..p] + [e] + entries[p..]
  }

  /** `victimize`: the line takes a way, and the word that was there is returned; 0 if there was
      room in the fully associative cache. */
  function Victimize(s: Store, reg: bv32, line: nat): (Store, bv32, nat)
    requires s.SetAssociative? ==> s.sets > 0 && s.ways > 0 && |s.tags| == s.sets * s.ways
    requires s.FullyAssociative? ==> s.capacity > 0
  {
    match s
    case SetAssociative(sets, ways, tags) =>
      SetBounds(line, sets, ways);
      var k := (line % sets) * ways + Draw(reg, ways);
      (s.(tags := tags[k := CleanWord(line)]), LfsrNext(reg), tags[k])
    case FullyAssociative(capacity, entries) =>
      var e := Entry(line, CleanWord(line));
      if |entries| == capacity then
        var k := Draw(reg, capacity);
        (s.(entries := Insert(entries[..k] + entries[k + 1..], e)), LfsrNext(reg), entries[k].word)
      else (s.(entries := Insert(entries, e)), reg, 0)
  }

  function MarkDirty(s: Store, k: nat): Store
    requires k < |Words(s)|
  {
    match s
    case SetAssociative(_, _, tags) => s.(tags := tags[k := SetDirty(tags[k])])
    case FullyAssociative(_, entries) => s.(entries := entries[k := entries[k].(word := SetDirty(entries[k].word))])
  }

  // ---------------------------------------------------------------------------------------
  // Tag words as the sets of lines held, and of lines held dirty

  function Victim(w: nat): set<nat> { if IsValid(w) then {LineIn(w)} else {} }
  function DirtyVictim(w: nat): set<nat> { if IsDirty(w) then {LineIn(w)} else {} }

  /** The line of `w` is not that of any other word than number `k`. */
  ghost predicate NewAt(words: seq<nat>, k: nat, w: nat) {
    forall i :: 0 <= i < |words| && i != k && IsValid(words[i]) ==> LineIn(words[i]) != LineIn(w)
  }

  lemma LineAt(words: seq<nat>, l: nat) returns (i: nat)
    requires l in Lines(words)
    ensures i < |words| && IsValid(words[i]) && LineIn(words[i]) == l
  {
    i :| 0 <= i < |words| && IsValid(words[i]) && LineIn(words[i]) == l;
  }

  lemma DirtyAt(words: seq<nat>, l: nat) returns (i: nat)
    requires l in DirtyLines(words)
    ensures i < |words| && IsDirty(words[i]) && LineIn(words[i]) == l
  {
    i :| 0 <= i < |words| && IsDirty(words[i]) && LineIn(words[i]) == l;
  }

  lemma ReplaceWord(words: seq<nat>, k: nat, w: nat)
    requires k < |words| && AllWordsOk(words) && AtMostOnce(words) && IsValid(w) && NewAt(words, k, w)
    ensures var words' := words[k := w];
      && AllWordsOk(words') && AtMostOnce(words')
      && Lines(words') == Lines(words) - Victim(words[k]) + {LineIn(w)}
      && DirtyLines(words') == DirtyLines(words) - DirtyVictim(words[k]) + DirtyVictim(w)
  {
    hide LineIn;
    var words' := words[k := w];
    forall l
      ensures l in Lines(words') <==> l in Lines(words) - Victim(words[k]) + {LineIn(w)}
    {
      if l in Lines(words') {
        var i := LineAt(words', l);
        assert i != k ==> words[i] == words'[i];
      }
      if l in Lines(words) - Victim(words[k]) {
        var i := LineAt(words, l);
        assert words'[i] == words[i];
      }
      assert words'[k] == w;
    }
    forall l
      ensures l in DirtyLines(words') <==> l in DirtyLines(words) - DirtyVictim(words[k]) + DirtyVictim(w)
    {
      if l in DirtyLines(words') {
        var i := DirtyAt(words', l);
        assert i != k ==> words[i] == words'[i];
      }
      if l in DirtyLines(words) - DirtyVictim(words[k]) {
        var i := DirtyAt(words, l);
        assert words'[i] == words[i];
      }
      assert words'[k] == w;
    }
  }

  function Without(words: seq<nat>, k: nat): seq<nat>
    requires k < |words|
  {
    words[..k] + words[k + 1..]
  }

  lemma RemoveWord(words: seq<nat>, k: nat)
    requires k < |words| && AllWordsOk(words) && AtMostOnce(words)
    ensures var words' := Without(words, k);
      && AllWordsOk(words') && AtMostOnce(words')
      && Lines(words') == Lines(words) - Victim(words[k])
      && DirtyLines(words') == DirtyLines(words) - DirtyVictim(words[k])
  {
    hide LineIn;
    var words' := Without(words, k);
    forall l
      ensures l in Lines(words') <==> l in Lines(words) - Victim(words[k])
    {
      if l in Lines(words') {
        var i := LineAt(words', l);
        assert words[if i < k then i else i + 1] == words'[i];
      }
      if l in Lines(words) - Victim(words[k]) {
        var i := LineAt(words, l);
        assert words'[if i < k then i else i - 1] == words[i];
      }
    }
    forall l
      ensures l in DirtyLines(words') <==> l in DirtyLines(words) - DirtyVictim(words[k])
    {
      if l in DirtyLines(words') {
        var i := DirtyAt(words', l);
        assert words[if i < k then i else i + 1] == words'[i];
      }
      if l in DirtyLines(words) - DirtyVictim(words[k]) {
        var i := DirtyAt(words, l);
        assert words'[if i < k then i else i - 1] == words[i];
      }
    }
  }

  function With(words: seq<nat>, p: nat, w: nat): seq<nat>
    requires p <= |words|
  {
    words[..p] + [w] + words[p..]
  }

  lemma InsertWord(words: seq<nat>, p: nat, w: nat)
    requires p <= |words| && AllWordsOk(words) && AtMostOnce(words) && IsValid(w) && LineIn(w) !in Lines(words)
    ensures var words' := With(words, p, w);
      && AllWordsOk(words') && AtMostOnce(words')
      && Lines(words') == Lines(words) + {LineIn(w)}
      && DirtyLines(words') == DirtyLines(words) + DirtyVictim(w)
  {
    hide LineIn;
    var words' := With(words, p, w);
    forall l
      ensures l in Lines(words') <==> l in Lines(words) + {LineIn(w)}
    {
      if l in Lines(words') {
        var i := LineAt(words', l);
        assert i != p ==> words[if i < p then i else i - 1] == words'[i];
      }
      if l in Lines(words) {
        var i := LineAt(words, l);
        assert words'[if i < p then i else i + 1] == words[i];
      }
      assert words'[p] == w;
    }
    forall l
      ensures l in DirtyLines(words') <==> l in DirtyLines(words) + DirtyVictim(w)
    {
      if l in DirtyLines(words') {
        var i := DirtyAt(words', l);
        assert i != p ==> words[if i < p then i else i - 1] == words'[i];
      }
      if l in DirtyLines(words) {
        var i := DirtyAt(words, l);
        assert words'[if i < p then i else i + 1] == words[i];
      }
      assert words'[p] == w;
    }
  }

  // ---------------------------------------------------------------------------------------
  // What `check_tag`, the dirty bit and `victimize` do to those sets

  /** `check_tag` finds a line exactly when it is held, and then at its word. */
  lemma CheckTagFinds(s: Store, line: nat)
    requires StoreOk(s) && line < DIRTY
    ensures CheckTag(s, line).Some? <==> line in Lines(Words(s))
    ensures var r := CheckTag(s, line);
      r.Some? ==> r.value < |Words(s)| && IsValid(Words(s)[r.value]) && LineIn(Words(s)[r.value]) == line
  {
    match s
    case SetAssociative(_, _, _) => CheckTagSet(s, line);
    case FullyAssociative(_, _) => CheckTagFull(s, line);
  }

  lemma CheckTagSet(s: Store, line: nat)
    requires StoreOk(s) && line < DIRTY && s.SetAssociative?
    ensures CheckTag(s, line).Some? <==> line in Lines(Words(s))
    ensures var r := CheckTag(s, line);
      r.Some? ==> r.value < |Words(s)| && IsValid(Words(s)[r.value]) && LineIn(Words(s)[r.value]) == line
  {
    hide ClearDirty, CleanWord, LineIn, AtMostOnce;
    var r := CheckTag(s, line);
    SetBounds(line, s.sets, s.ways);
    if r.Some? {
      WordFacts(s.tags[r.value], line);
      assert line in Lines(s.tags);
    } else if line in Lines(Words(s)) {
      var k := LineAt(s.tags, line);
      WordFacts(s.tags[k], line);
      OwnSlot(k, s.ways);
    }
  }

  lemma OwnSlot(k: nat, ways: nat)
    requires ways > 0
    ensures (k / ways) * ways <= k < (k / ways) * ways + ways
  {
  }

  lemma CheckTagFull(s: Store, line: nat)
    requires StoreOk(s) && line < DIRTY && s.FullyAssociative?
    ensures CheckTag(s, line).Some? <==> line in Lines(Words(s))
    ensures var r := CheckTag(s, line);
      r.Some? ==> r.value < |Words(s)| && IsValid(Words(s)[r.value]) && LineIn(Words(s)[r.value]) == line
  {
    hide LineIn, AtMostOnce;
    var r := CheckTag(s, line);
    if r.Some? {
      assert Words(s)[r.value] == s.entries[r.value].word;
      assert line in Lines(Words(s));
    } else if line in Lines(Words(s)) {
      var k := LineAt(Words(s), line);
      assert false;
    }
  }

  lemma MarkDirtyEffect(s: Store, k: nat)
    requires StoreOk(s) && k < |Words(s)| && IsValid(Words(s)[k])
    ensures StoreOk(MarkDirty(s, k))
    ensures Lines(Words(MarkDirty(s, k))) == Lines(Words(s))
    ensures DirtyLines(Words(MarkDirty(s, k))) == DirtyLines(Words(s)) + {LineIn(Words(s)[k])}
  {
    var words, s' := Words(s), MarkDirty(s, k);
    var w := SetDirty(words[k]);
    hide SetDirty, LineIn;
    WordFacts(words[k], 0);
    assert Words(s') == words[k := w];
    ReplaceWord(words, k, w);
    assert LineIn(words[k]) in Lines(words);
    assert Lines(Words(s')) == Lines(words);
  }

  lemma VictimizeSet(s: Store, reg: bv32, line: nat)
    requires StoreOk(s) && s.SetAssociative? && line < DIRTY && line !in Lines(Words(s))
    ensures var (s', _, v) := Victimize(s, reg, line);
      && StoreOk(s') && v in Words(s)
      && Lines(Words(s')) == Lines(Words(s)) - Victim(v) + {line}
      && DirtyLines(Words(s')) == DirtyLines(Words(s)) - DirtyVictim(v)
  {
    var k := (line % s.sets) * s.ways + Draw(reg, s.ways);
    hide LineIn, Draw, LfsrNext, CleanWord;
    SetBounds(line, s.sets, s.ways);
    WordFacts(s.tags[k], line);
    forall i | 0 <= i < |s.tags| && i != k && IsValid(s.tags[i])
      ensures LineIn(s.tags[i]) != line
    {
      assert LineIn(s.tags[i]) in Lines(s.tags);
    }
    ReplaceWord(s.tags, k, CleanWord(line));
    DivModUnique(k, s.ways, line % s.sets, Draw(reg, s.ways));
  }

  lemma EntryRemoved(entries: seq<Entry>, k: nat)
    requires k < |entries| && Keyed(entries)
    ensures Keyed(entries[..k] + entries[k + 1..])
    ensures WordsOf(entries[..k] + entries[k + 1..]) == Without(WordsOf(entries), k)
  {
    hide LineIn;
  }

  lemma EntryInserted(entries: seq<Entry>, e: Entry)
    requires Keyed(entries) && IsValid(e.word) && LineIn(e.word) == e.line && e.line !in Lines(WordsOf(entries))
    ensures Keyed(Insert(entries, e))
    ensures WordsOf(Insert(entries, e)) == With(WordsOf(entries), Position(entries, e.line, 0), e.word)
  {
    hide LineIn;
    var p := Position(entries, e.line, 0);
    PositionSplits(entries, e.line);
    hide Position;
    forall i | 0 <= i < |entries|
      ensures entries[i].line != e.line
    {
      assert WordsOf(entries)[i] == entries[i].word;
      assert LineIn(WordsOf(entries)[i]) in Lines(WordsOf(entries));
    }
    KeyedAround(entries, p, e);
  }

  lemma PositionSplits(entries: seq<Entry>, line: nat)
    requires Keyed(entries)
    ensures forall i :: Position(entries, line, 0) <= i < |entries| ==> entries[i].line >= line
  {
    hide LineIn;
    var p := Position(entries, line, 0);
    assert forall i :: p < i < |entries| ==> entries[p].line < entries[i].line;
  }

  lemma KeyedAround(entries: seq<Entry>, p: nat, e: Entry)
    requires Keyed(entries) && p <= |entries| && IsValid(e.word) && LineIn(e.word) == e.line
    requires forall i :: 0 <= i < p ==> entries[i].line < e.line
    requires forall i :: p <= i < |entries| ==> entries[i].line > e.line
    ensures Keyed(entries[..p] + [e] + entries[p..])
    ensures WordsOf(entries[..p] + [e] + entries[p..]) == With(WordsOf(entries), p, e.word)
  {
    hide LineIn;
  }

  lemma VictimizeFull(s: Store, reg: bv32, line: nat)
    requires StoreOk(s) && s.FullyAssociative? && line < DIRTY && line !in Lines(Words(s))
    ensures var (s', _, v) := Victimize(s, reg, line);
      && StoreOk(s') && (v in Words(s) || v == 0)
      && Lines(Words(s')) == Lines(Words(s)) - Victim(v) + {line}
      && DirtyLines(Words(s')) == DirtyLines(Words(s)) - DirtyVictim(v)
  {
    hide LineIn, Draw, LfsrNext, CleanWord, Keyed, Insert;
    var e := Entry(line, CleanWord(line));
    WordFacts(0, line);
    InsertLength(s.entries, e);
    if |s.entries| == s.capacity {
      var k := Draw(reg, s.capacity);
      var rest := s.entries[..k] + s.entries[k + 1..];
      EntryRemoved(s.entries, k);
      RemoveWord(Words(s), k);
      InsertLength(rest, e);
      EntryInserted(rest, e);
      InsertWord(WordsOf(rest), Position(rest, line, 0), e.word);
      assert Words(s)[k] == s.entries[k].word;
    } else {
      EntryInserted(s.entries, e);
      InsertWord(Words(s), Position(s.entries, line, 0), e.word);
    }
  }

  lemma InsertLength(entries: seq<Entry>, e: Entry)
    ensures |Insert(entries, e)| == |entries| + 1
  {
  }

  /** Whatever the organisation, `victimize` puts the line in, clean, in the place of the victim. */
  lemma VictimizeEffect(s: Store, reg: bv32, line: nat)
    requires StoreOk(s) && line < DIRTY && line !in Lines(Words(s))
    ensures var (s', _, v) := Victimize(s, reg, line);
      && StoreOk(s') && (v in Words(s) || v == 0)
      && Lines(Words(s')) == Lines(Words(s)) - Victim(v) + {line}
      && DirtyLines(Words(s')) == DirtyLines(Words(s)) - DirtyVictim(v)
  {
    hide StoreOk, Victimize, Lines, DirtyLines;
    match s
    case SetAssociative(_, _, _) => VictimizeSet(s, reg, line);
    case FullyAssociative(_, _) => VictimizeFull(s, reg, line);
  }

  // ---------------------------------------------------------------------------------------
  // One access

  datatype Request = Request(addr: nat, bytes: nat, store: bool)

  datatype Stats = Stats(readAccesses: nat, readMisses: nat, bytesRead: nat,
                         writeAccesses: nat, writeMisses: nat, bytesWritten: nat, writebacks: nat)

  datatype Cache = Cache(linesz: nat, store: Store, reg: bv32, stats: Stats)

  /** Lines are at least eight bytes long, so that a line number leaves the flag bits clear. */
  ghost predicate CacheOk(c: Cache) { c.linesz >= 8 && StoreOk(c.store) }

  predicate RequestOk(r: Request) { r.addr < WORDS }

  function LineOf(addr: nat, linesz: nat): nat
    requires linesz > 0
  {
    addr / linesz
  }

  lemma LineBound(addr: nat, linesz: nat)
    requires addr < WORDS && linesz >= 8
    ensures LineOf(addr, linesz) < DIRTY
  {
    MulLe(8, linesz, addr / linesz);
  }

  function CountAccess(s: Stats, r: Request): Stats {
    if r.store then s.(writeAccesses := s.writeAccesses + 1, bytesWritten := s.bytesWritten + r.bytes)
    else s.(readAccesses := s.readAccesses + 1, bytesRead := s.bytesRead + r.bytes)
  }

  function CountMiss(s: Stats, r: Request): Stats {
    if r.store then s.(writeMisses := s.writeMisses + 1) else s.(readMisses := s.readMisses + 1)
  }

  /** The requests that a miss sends to the next level. */
  function MissRequests(victim: nat, line: nat, linesz: nat): seq<Request> {
    (if IsDirty(victim) then [Request(LineIn(victim) * linesz, linesz, true)] else [])
    + [Request(line * linesz, linesz, false)]
  }

  /** `access`: the new state, and what the next level is asked for, in order. */
  function AccessOf(c: Cache, r: Request): (Cache, seq<Request>)
    requires CacheOk(c) && RequestOk(r)
  {
    var line := LineOf(r.addr, c.linesz);
    var c' := c.(stats := CountAccess(c.stats, r));
    LineBound(r.addr, c.linesz);
    CheckTagFinds(c.store, line);
    match CheckTag(c.store, line)
    case Some(k) => (if r.store then c'.(store := MarkDirty(c.store, k)) else c', [])
    case None => Miss(c'.(stats := CountMiss(c'.stats, r)), r.store, line)
  }

  /** The line is in, clean; the victim's word is returned, and counted if it is to be written back. */
  function Refilled(c: Cache, line: nat): (Cache, nat)
    requires CacheOk(c) && line < DIRTY && line !in Lines(Words(c.store))
  {
    var (filled, reg, victim) := Victimize(c.store, c.reg, line);
    (c.(store := filled, reg := reg,
        stats := if IsDirty(victim) then c.stats.(writebacks := c.stats.writebacks + 1) else c.stats),
     victim)
  }

  function Miss(c: Cache, store: bool, line: nat): (Cache, seq<Request>)
    requires CacheOk(c) && line < DIRTY && line !in Lines(Words(c.store))
  {
    VictimizeEffect(c.store, c.reg, line);
    var (c', victim) := Refilled(c, line);
    CheckTagFinds(c'.store, line);
    (if store then c'.(store := MarkDirty(c'.store, CheckTag(c'.store, line).value)) else c',
     MissRequests(victim, line, c.linesz))
  }

  /** Who is evicted by an access, and whether it is written back. */
  datatype Eviction = Nobody | Evicted(line: nat, dirty: bool)

  function EvictedLine(e: Eviction): set<nat> { if e.Evicted? then {e.line} else {} }
  function WrittenLine(e: Eviction): set<nat> { if e.Evicted? && e.dirty then {e.line} else {} }
  function Writebacks(e: Eviction): nat { if e.Evicted? && e.dirty then 1 else 0 }

  /** What a level asks of the next: to take the dirty victim at its own address, and to supply the line. */
  function Asked(e: Eviction, line: nat, linesz: nat): seq<Request> {
    (if e.Evicted? && e.dirty then [Request(e.line * linesz, linesz, true)] else [])
    + [Request(line * linesz, linesz, false)]
  }

  /** A line is evicted only if it is held, and is written back exactly when it is held dirty. */
  ghost predicate Evicts(words: seq<nat>, e: Eviction) {
    e.Evicted? ==> e.line in Lines(words) && (e.dirty <==> e.line in DirtyLines(words))
  }

  /** What an access comes to, in terms of the lines held and the lines held dirty. */
  ghost predicate Accessed(c: Cache, r: Request, c': Cache, requests: seq<Request>, e: Eviction)
    requires c.linesz > 0
  {
    var words, words' := Words(c.store), Words(c'.store);
    var line := LineOf(r.addr, c.linesz);
    && c'.linesz == c.linesz && Evicts(words, e)
    && DirtyLines(words') == DirtyLines(words) - WrittenLine(e) + (if r.store then {line} else {})
    && (if line in Lines(words) then
          && e == Nobody && requests == [] && Lines(words') == Lines(words)
          && c'.stats == CountAccess(c.stats, r)
        else
          && Lines(words') == Lines(words) - EvictedLine(e) + {line}
          && requests == Asked(e, line, c.linesz)
          && c'.stats == CountMiss(CountAccess(c.stats, r), r).(writebacks := c.stats.writebacks + Writebacks(e)))
  }

  function EvictionOf(victim: nat): Eviction {
    if IsValid(victim) then Evicted(LineIn(victim), IsDirty(victim)) else Nobody
  }

  lemma EvictionFits(s: Store, victim: nat)
    requires StoreOk(s) && (victim in Words(s) || victim == 0)
    ensures Evicts(Words(s), EvictionOf(victim))
  {
    hide LineIn;
    var words := Words(s);
    if IsValid(victim) {
      var i :| 0 <= i < |words| && words[i] == victim;
      assert LineIn(words[i]) in Lines(words);
      if IsDirty(victim) {
        assert LineIn(words[i]) in DirtyLines(words);
      } else if LineIn(victim) in DirtyLines(words) {
        var j := DirtyAt(words, LineIn(victim));
        assert false;
      }
    }
  }

  lemma MissEffect(c: Cache, store: bool, line: nat) returns (e: Eviction)
    requires CacheOk(c) && line < DIRTY && line !in Lines(Words(c.store))
    ensures var (c', requests) := Miss(c, store, line);
      var words, words' := Words(c.store), Words(c'.store);
      && CacheOk(c') && c'.linesz == c.linesz && Evicts(words, e)
      && Lines(words') == Lines(words) - EvictedLine(e) + {line}
      && DirtyLines(words') == DirtyLines(words) - WrittenLine(e) + (if store then {line} else {})
      && requests == Asked(e, line, c.linesz)
      && c'.stats == c.stats.(writebacks := c.stats.writebacks + Writebacks(e))
  {
    hide AllWordsOk, AtMostOnce, InOwnSet, Keyed, Lines, DirtyLines, LineIn, Victimize, Words, MarkDirty, CheckTag;
    VictimizeEffect(c.store, c.reg, line);
    var (filled, reg, victim) := Victimize(c.store, c.reg, line);
    e := EvictionOf(victim);
    EvictionFits(c.store, victim);
    VictimSets(victim);
    CheckTagFinds(filled, line);
    if store { MarkDirtyEffect(filled, CheckTag(filled, line).value); }
  }

  lemma VictimSets(victim: nat)
    ensures Victim(victim) == EvictedLine(EvictionOf(victim))
    ensures DirtyVictim(victim) == WrittenLine(EvictionOf(victim))
    ensures IsDirty(victim) <==> EvictionOf(victim).Evicted? && EvictionOf(victim).dirty
  {
    hide LineIn;
  }

  /** Every access keeps the cache in order and does what `Accessed` says. */
  lemma AccessEffect(c: Cache, r: Request) returns (e: Eviction)
    requires CacheOk(c) && RequestOk(r)
    ensures var (c', requests) := AccessOf(c, r); CacheOk(c') && Accessed(c, r, c', requests, e)
  {
    hide AllWordsOk, AtMostOnce, InOwnSet, Keyed, Lines, DirtyLines, LineIn, Words, MarkDirty, CheckTag, Miss, LineOf;
    var line := LineOf(r.addr, c.linesz);
    var c' := c.(stats := CountAccess(c.stats, r));
    LineBound(r.addr, c.linesz);
    CheckTagFinds(c.store, line);
    match CheckTag(c.store, line)
    case Some(k) =>
      e := Nobody;
      if r.store { MarkDirtyEffect(c.store, k); }
    case None =>
      e := MissEffect(c'.(stats := CountMiss(c'.stats, r)), r.store, line);
  }

  // ---------------------------------------------------------------------------------------
  // Every run

  lemma AccessKeeps(c: Cache, r: Request)
    requires CacheOk(c) && RequestOk(r)
    ensures CacheOk(AccessOf(c, r).0)
  {
    var e := AccessEffect(c, r);
  }

  ghost predicate AllOk(rs: seq<Request>) {
    forall i :: 0 <= i < |rs| ==> RequestOk(rs[i])
  }

  /** The state after a sequence of accesses, and everything asked of the next level on the way. */
  ghost function Run(c: Cache, rs: seq<Request>): (r: (Cache, seq<Request>))
    requires CacheOk(c) && AllOk(rs)
    ensures CacheOk(r.0)
    decreases |rs|
  {
    if rs == [] then (c, [])
    else
      var (c1, asked) := Run(c, rs[..|rs| - 1]);
      AccessKeeps(c1, rs[|rs| - 1]);
      var (c2, more) := AccessOf(c1, rs[|rs| - 1]);
      (c2, asked + more)
  }

  /** What happens to the data of lines: they are stored to, and written back. */
  datatype Event = Stored(line: nat) | WrittenBack(line: nat)

  function Events(linesz: nat, r: Request, asked: seq<Request>): seq<Event>
    requires linesz > 0
  {
    (if asked != [] && asked[0].store then [WrittenBack(LineOf(asked[0].addr, linesz))] else [])
    + (if r.store then [Stored(LineOf(r.addr, linesz))] else [])
  }

  ghost function Log(c: Cache, rs: seq<Request>): seq<Event>
    requires CacheOk(c) && AllOk(rs)
    decreases |rs|
  {
    if rs == [] then []
    else
      var before := rs[..|rs| - 1];
      var c1 := Run(c, before).0;
      Log(c, before) + Events(c1.linesz, rs[|rs| - 1], AccessOf(c1, rs[|rs| - 1]).1)
  }

  /** The line has been stored to since it was last written back. */
  function StoredSince(log: seq<Event>, line: nat): bool
    decreases |log|
  {
    if log == [] then false
    else if log[|log| - 1].line == line then log[|log| - 1].Stored?
    else StoredSince(log[..|log| - 1], line)
  }

  lemma {:induction false} StoredSinceAppend(log: seq<Event>, e: Event, line: nat)
    ensures StoredSince(log + [e], line) == if e.line == line then e.Stored? else StoredSince(log, line)
  {
    assert (log + [e])[..|log|] == log;
  }

  lemma LineOfBase(line: nat, linesz: nat)
    requires linesz > 0
    ensures LineOf(line * linesz, linesz) == line && (line * linesz) % linesz == 0
  {
    DivModUnique(line * linesz, linesz, line, 0);
  }

  function EventsOf(e: Eviction, own: nat, store: bool): seq<Event> {
    (if e.Evicted? && e.dirty then [WrittenBack(e.line)] else []) + (if store then [Stored(own)] else [])
  }

  lemma EventsAre(c: Cache, r: Request, c': Cache, asked: seq<Request>, e: Eviction)
    requires c.linesz > 0 && Accessed(c, r, c', asked, e)
    ensures Events(c.linesz, r, asked) == EventsOf(e, LineOf(r.addr, c.linesz), r.store)
  {
    hide Lines, DirtyLines, Words, LineOf;
    if e.Evicted? { LineOfBase(e.line, c.linesz); }
  }

  lemma EventsLogged(log: seq<Event>, e: Eviction, own: nat, store: bool, line: nat)
    ensures StoredSince(log + EventsOf(e, own, store), line) ==
      if store && line == own then true
      else if line in WrittenLine(e) then false
      else StoredSince(log, line)
  {
    hide StoredSince;
    var log1 := if e.Evicted? && e.dirty then log + [WrittenBack(e.line)] else log;
    if e.Evicted? && e.dirty { StoredSinceAppend(log, WrittenBack(e.line), line); }
    StoredSinceAppend(log1, Stored(own), line);
    assert log + EventsOf(e, own, store) == if store then log1 + [Stored(own)] else log1;
  }

  lemma EventsEffect(c: Cache, r: Request, log: seq<Event>, line: nat) returns (e: Eviction)
    requires CacheOk(c) && RequestOk(r)
    ensures var (c', asked) := AccessOf(c, r); Accessed(c, r, c', asked, e)
    ensures var own := LineOf(r.addr, c.linesz);
      StoredSince(log + Events(c.linesz, r, AccessOf(c, r).1), line) ==
        if r.store && line == own then true
        else if line in WrittenLine(e) then false
        else StoredSince(log, line)
  {
    e := AccessEffect(c, r);
    hide AccessOf, LineOf, Accessed, StoredSince, Events, EventsOf;
    EventsAre(c, r, AccessOf(c, r).0, AccessOf(c, r).1, e);
    EventsLogged(log, e, LineOf(r.addr, c.linesz), r.store, line);
  }

  /** Starting with nothing dirty, a line is held dirty exactly when it has been stored to since
      it was last written back. */
  lemma {:induction false} DirtyIffStored(c: Cache, rs: seq<Request>, line: nat)
    requires CacheOk(c) && AllOk(rs) && DirtyLines(Words(c.store)) == {}
    ensures line in DirtyLines(Words(Run(c, rs).0.store)) <==> StoredSince(Log(c, rs), line)
    decreases |rs|
  {
    hide CacheOk, AccessOf, LineOf, Lines, DirtyLines, Words, StoredSince, Events;
    if rs != [] {
      var before, r := rs[..|rs| - 1], rs[|rs| - 1];
      DirtyIffStored(c, before, line);
      var e := EventsEffect(Run(c, before).0, r, Log(c, before), line);
    } else {
      NothingStored(line);
    }
  }

  lemma NothingStored(line: nat)
    ensures !StoredSince([], line)
  {
  }

  // ---------------------------------------------------------------------------------------
  // Accounting

  function Reads(rs: seq<Request>): nat {
    if rs == [] then 0 else Reads(rs[..|rs| - 1]) + if rs[|rs| - 1].store then 0 else 1
  }

  function Writes(rs: seq<Request>): nat {
    if rs == [] then 0 else Writes(rs[..|rs| - 1]) + if rs[|rs| - 1].store then 1 else 0
  }

  lemma {:induction false} CountAppend(a: seq<Request>, b: seq<Request>)
    ensures Reads(a + b) == Reads(a) + Reads(b) && Writes(a + b) == Writes(a) + Writes(b)
    decreases |b|
  {
    if b == [] {
      assert a + b == a;
    } else {
      assert (a + b)[..|a + b| - 1] == a + b[..|b| - 1];
      CountAppend(a, b[..|b| - 1]);
    }
  }

  lemma AskedCounts(e: Eviction, line: nat, linesz: nat)
    ensures Reads(Asked(e, line, linesz)) == 1 && Writes(Asked(e, line, linesz)) == Writebacks(e)
  {
    var read := Request(line * linesz, linesz, false);
    assert Reads([read]) == 1 && Writes([read]) == 0;
    if e.Evicted? && e.dirty {
      var write := Request(e.line * linesz, linesz, true);
      assert Reads([write]) == 0 && Writes([write]) == 1;
      CountAppend([write], [read]);
    } else {
      assert [] + [read] == [read];
    }
  }

  function Misses(s: Stats): nat { s.readMisses + s.writeMisses }

  /** A store to a line that is not held dirty makes it so. */
  ghost function MadeDirty(c: Cache, r: Request): nat
    requires c.linesz > 0
  {
    if r.store && LineOf(r.addr, c.linesz) !in DirtyLines(Words(c.store)) then 1 else 0
  }

  ghost function TimesMadeDirty(c: Cache, rs: seq<Request>): nat
    requires CacheOk(c) && AllOk(rs)
    decreases |rs|
  {
    if rs == [] then 0
    else TimesMadeDirty(c, rs[..|rs| - 1]) + MadeDirty(Run(c, rs[..|rs| - 1]).0, rs[|rs| - 1])
  }

  /** One access's contribution to every balance. */
  lemma AccessBalance(c: Cache, r: Request)
    requires CacheOk(c) && RequestOk(r)
    ensures var (c', asked) := AccessOf(c, r);
      && Reads(asked) == Misses(c'.stats) - Misses(c.stats)
      && Writes(asked) == c'.stats.writebacks - c.stats.writebacks
      && MadeDirty(c, r) + |DirtyLines(Words(c.store))| == Writes(asked) + |DirtyLines(Words(c'.store))|
      && c'.stats.readAccesses + c'.stats.writeAccesses == c.stats.readAccesses + c.stats.writeAccesses + 1
  {
    var e := AccessEffect(c, r);
    hide AccessOf, LineOf, Lines, DirtyLines, Words, Asked, Reads, Writes;
    var line := LineOf(r.addr, c.linesz);
    AskedCounts(e, line, c.linesz);
    NoneAsked();
    DirtyCount(DirtyLines(Words(c.store)), e, line, r.store);
    DirtyAreHeld(Words(c.store));
  }

  lemma NoneAsked()
    ensures Reads([]) == 0 && Writes([]) == 0
  {
  }

  lemma DirtyAreHeld(words: seq<nat>)
    ensures DirtyLines(words) <= Lines(words)
  {
    hide LineIn;
    forall l | l in DirtyLines(words)
      ensures l in Lines(words)
    {
      var i := DirtyAt(words, l);
    }
  }

  lemma DirtyCount(d: set<nat>, e: Eviction, line: nat, store: bool)
    requires e.Evicted? ==> (e.dirty <==> e.line in d) && e.line != line
    ensures |d - WrittenLine(e) + (if store then {line} else {})|
         == |d| - Writebacks(e) + (if store && line !in d then 1 else 0)
  {
    var d1 := d - WrittenLine(e);
    assert |d1| == |d| - Writebacks(e);
    if store {
      if line in d { assert d1 + {line} == d1; }
    } else {
      assert d1 + {} == d1;
    }
  }

  /** Over every run: the next level is read once for every miss and written once for every
      writeback; and the times a clean line became dirty are the writebacks plus the lines now
      dirty, less those dirty at the start. */
  lemma {:induction false} Accounting(c: Cache, rs: seq<Request>)
    requires CacheOk(c) && AllOk(rs)
    ensures var (c', asked) := Run(c, rs);
      && Reads(asked) == Misses(c'.stats) - Misses(c.stats)
      && Writes(asked) == c'.stats.writebacks - c.stats.writebacks
      && TimesMadeDirty(c, rs) + |DirtyLines(Words(c.store))| == Writes(asked) + |DirtyLines(Words(c'.store))|
      && c'.stats.readAccesses + c'.stats.writeAccesses == c.stats.readAccesses + c.stats.writeAccesses + |rs|
    decreases |rs|
  {
    hide CacheOk, AccessOf, DirtyLines, Words, Reads, Writes, MadeDirty, Misses;
    NoneAsked();
    if rs != [] {
      var before, r := rs[..|rs| - 1], rs[|rs| - 1];
      Accounting(c, before);
      var (c1, asked) := Run(c, before);
      AccessBalance(c1, r);
      CountAppend(asked, AccessOf(c1, r).1);
    }
  }

  /** Every writeback carries the address of a line that was held dirty and is held no longer. */
  lemma WritebackAddress(c: Cache, r: Request, q: Request)
    requires CacheOk(c) && RequestOk(r) && q in AccessOf(c, r).1 && q.store
    ensures q.addr % c.linesz == 0 && q.bytes == c.linesz
    ensures LineOf(q.addr, c.linesz) in DirtyLines(Words(c.store))
    ensures LineOf(q.addr, c.linesz) !in Lines(Words(AccessOf(c, r).0.store))
  {
    var e := AccessEffect(c, r);
    hide AccessOf, Lines, DirtyLines, Words;
    assert e.Evicted? && e.dirty;
    LineOfBase(e.line, c.linesz);
  }

  /** The bytes of a line have 64-bit addresses. */
  predicate InRange(line: nat, linesz: nat) { line * linesz < WORDS }

  ghost predicate LinesInRange(c: Cache) {
    forall l :: l in Lines(Words(c.store)) ==> InRange(l, c.linesz)
  }

  lemma OwnLineInRange(addr: nat, linesz: nat)
    requires addr < WORDS && linesz > 0
    ensures InRange(LineOf(addr, linesz), linesz)
  {
  }

  lemma AskedInRange(e: Eviction, line: nat, linesz: nat)
    requires InRange(line, linesz) && (e.Evicted? ==> InRange(e.line, linesz))
    ensures AllOk(Asked(e, line, linesz))
  {
  }

  lemma AskedOk(c: Cache, r: Request)
    requires CacheOk(c) && RequestOk(r) && LinesInRange(c)
    ensures LinesInRange(AccessOf(c, r).0) && AllOk(AccessOf(c, r).1)
  {
    var e := AccessEffect(c, r);
    OwnLineInRange(r.addr, c.linesz);
    hide AccessOf, Lines, DirtyLines, Words, LineOf, InRange, AllOk, Asked;
    NoneOk();
    if LineOf(r.addr, c.linesz) !in Lines(Words(c.store)) {
      AskedInRange(e, LineOf(r.addr, c.linesz), c.linesz);
    }
  }

  lemma NoneOk()
    ensures AllOk([])
  {
  }

  /** The requests to the next level are proper requests to it. */
  lemma {:induction false} NextRequestsOk(c: Cache, rs: seq<Request>)
    requires CacheOk(c) && AllOk(rs) && LinesInRange(c)
    ensures LinesInRange(Run(c, rs).0) && AllOk(Run(c, rs).1)
    decreases |rs|
  {
    hide AccessOf, LinesInRange;
    if rs != [] {
      NextRequestsOk(c, rs[..|rs| - 1]);
      AskedOk(Run(c, rs[..|rs| - 1]).0, rs[|rs| - 1]);
    }
  }

  /** A next level that serves this cache alone counts one read for each of its misses and one
      write for each of its writebacks. */
  lemma NextLevelCounts(c: Cache, next: Cache, rs: seq<Request>)
    requires CacheOk(c) && CacheOk(next) && AllOk(rs) && LinesInRange(c)
    ensures AllOk(Run(c, rs).1)
    ensures var (c', asked) := Run(c, rs);
      var next' := Run(next, asked).0;
      && next'.stats.readAccesses - next.stats.readAccesses == Misses(c'.stats) - Misses(c.stats)
      && next'.stats.writeAccesses - next.stats.writeAccesses == c'.stats.writebacks - c.stats.writebacks
  {
    hide CacheOk, LinesInRange, Run, Reads, Writes, Misses;
    NextRequestsOk(c, rs);
    Accounting(c, rs);
    AccessesCounted(next, Run(c, rs).1);
  }

  lemma {:induction false} AccessesCounted(c: Cache, rs: seq<Request>)
    requires CacheOk(c) && AllOk(rs)
    ensures Run(c, rs).0.stats.readAccesses == c.stats.readAccesses + Reads(rs)
    ensures Run(c, rs).0.stats.writeAccesses == c.stats.writeAccesses + Writes(rs)
    decreases |rs|
  {
    hide CacheOk, AccessOf;
    if rs != [] {
      AccessesCounted(c, rs[..|rs| - 1]);
      AccessCounted(Run(c, rs[..|rs| - 1]).0, rs[|rs| - 1]);
    }
  }

  lemma AccessCounted(c: Cache, r: Request)
    requires CacheOk(c) && RequestOk(r)
    ensures var s, s' := c.stats, AccessOf(c, r).0.stats;
      && s'.readAccesses == s.readAccesses + (if r.store then 0 else 1)
      && s'.writeAccesses == s.writeAccesses + (if r.store then 1 else 0)
  {
    var e := AccessEffect(c, r);
    hide AccessOf, Lines, DirtyLines, Words, LineOf;
  }

  // ---------------------------------------------------------------------------------------
  // A hierarchy of caches

  ghost predicate ChainOk(chain: seq<Cache>) {
    forall i :: 0 <= i < |chain| ==> CacheOk(chain[i]) && LinesInRange(chain[i])
  }

  /** An access to the first of a chain of caches, each asking the next. */
  ghost function AccessChain(chain: seq<Cache>, r: Request): (result: seq<Cache>)
    requires chain != [] && ChainOk(chain) && RequestOk(r)
    ensures ChainOk(result) && |result| == |chain|
    decreases |chain|, 0
  {
    AccessKeeps(chain[0], r);
    AskedOk(chain[0], r);
    var (c, asked) := AccessOf(chain[0], r);
    [c] + RunChain(chain[1..], asked)
  }

  ghost function RunChain(chain: seq<Cache>, rs: seq<Request>): (result: seq<Cache>)
    requires ChainOk(chain) && AllOk(rs)
    ensures ChainOk(result) && |result| == |chain|
    decreases |chain|, |rs| + 1
  {
    if chain == [] || rs == [] then chain
    else AccessChain(RunChain(chain, rs[..|rs| - 1]), rs[|rs| - 1])
  }

  // ---------------------------------------------------------------------------------------
  // The caches as objects

  class Level {
    const linesz: nat
    const missHandler: Level?
    var store: Store
    var reg: bv32
    var stats: Stats
    ghost const Repr: set<object>

    ghost function State(): Cache
      reads this
    {
      Cache(linesz, store, reg, stats)
    }

    ghost predicate Valid()
      reads this, Repr
      decreases Repr
    {
      && this in Repr && CacheOk(State()) && LinesInRange(State())
      && (missHandler != null ==>
            && missHandler in Repr && missHandler.Repr <= Repr && this !in missHandler.Repr
            && missHandler.Valid())
    }

    /** The objects of the caches below. */
    ghost function Below(): set<object> {
      if missHandler == null then {} else missHandler.Repr
    }

    /** This cache and those below it. */
    ghost function Chain(): (r: seq<Cache>)
      requires Valid()
      reads this, Repr
      ensures r != [] && r[0] == State() && ChainOk(r)
      decreases Repr
    {
      [State()] + (if missHandler == null then [] else missHandler.Chain())
    }

    /** An empty cache above another, or above nothing. */
    constructor (linesz: nat, sets: nat, ways: nat, missHandler: Level?)
      requires linesz >= 8 && sets > 0 && ways > 0
      requires missHandler != null ==> missHandler.Valid()
      ensures Valid() && this.missHandler == missHandler
      ensures State() == Cache(linesz, if ways > 4 && sets == 1 then FullyAssociative(ways, [])
                                       else SetAssociative(sets, ways, seq(sets * ways, i => 0)),
                               1, Stats(0, 0, 0, 0, 0, 0, 0))
      ensures DirtyLines(Words(store)) == {}
    {
      this.linesz, this.missHandler := linesz, missHandler;
      reg := 1;
      stats := Stats(0, 0, 0, 0, 0, 0, 0);
      store := if ways > 4 && sets == 1 then FullyAssociative(ways, [])
               else SetAssociative(sets, ways, seq(sets * ways, i => 0));
      Repr := {this} + if missHandler == null then {} else missHandler.Repr;
    }

    /** `check_tag`. */
    method FindTag(line: nat) returns (r: Option<nat>)
      requires StoreOk(store)
      ensures r == CheckTag(store, line)
    {
      hide ClearDirty, CleanWord, AllWordsOk, AtMostOnce, InOwnSet, Keyed;
      match store {
        case SetAssociative(sets, ways, tags) =>
          SetBounds(line, sets, ways);
          var tag, base := CleanWord(line), (line % sets) * ways;
          var i := 0;
          while i < ways
            invariant i <= ways
            invariant CheckTag(store, line) == FindWay(tags, base + i, ways - i, tag)
          {
            if tag == ClearDirty(tags[base + i]) {
              return Some(base + i);
            }
            i := i + 1;
          }
          return None;
        case FullyAssociative(_, entries) =>
          r := FindEntry(entries, line, 0);
      }
    }

    method Access(addr: nat, bytes: nat, isStore: bool)
      requires Valid() && addr < WORDS
      modifies Repr
      ensures Valid() && Chain() == AccessChain(old(Chain()), Request(addr, bytes, isStore))
      decreases Repr, 1
    {
      hide StoreOk, LinesInRange, Lines, DirtyLines, Words, MarkDirty, AccessChain, RunChain, CountAccess,
           CountMiss, Miss, LineOf, AllOk, CheckTag, ChainOk;
      ghost var r := Request(addr, bytes, isStore);
      ghost var c0, chain0, asked := State(), Chain(), AccessOf(State(), r).1;
      AskedOk(c0, r);
      AccessKeeps(c0, r);
      ChainUnfolds(chain0, r);
      stats := CountAccess(stats, Request(addr, bytes, isStore));
      var line := LineOf(addr, linesz);
      LineBound(addr, linesz);
      CheckTagFinds(store, line);
      var hit := FindTag(line);
      if hit.Some? {
        if isStore {
          store := MarkDirty(store, hit.value);
        }
        NothingAsked(chain0[1..]);
        return;
      }
      stats := CountMiss(stats, Request(addr, bytes, isStore));
      SameLines(c0, State());
      EmptyChain(asked);
      TakeMiss(line, isStore);
    }

    /** The line comes in, and what it displaces goes out, by way of the next level. */
    method TakeMiss(line: nat, isStore: bool)
      requires CacheOk(State()) && line < DIRTY && line !in Lines(Words(store))
      requires AllOk(Miss(State(), isStore, line).1)
      requires missHandler != null ==> missHandler.Valid() && this !in missHandler.Repr
      modifies this`store, this`reg, this`stats, Below()
      ensures State() == Miss(old(State()), isStore, line).0
      ensures missHandler != null ==> missHandler.Valid()
      ensures missHandler != null ==>
        missHandler.Chain() == RunChain(old(missHandler.Chain()), Miss(old(State()), isStore, line).1)
      decreases Below(), 3
    {
      hide CacheOk, StoreOk, LinesInRange, Lines, Words, RunChain, Miss, AllOk, MissRequests, Refilled, MarkDirty,
          CheckTag, ChainOk, AccessChain;
      ghost var c0 := State();
      MissIs(c0, isStore, line);
      var victim := Replace(line);
      ghost var c1 := State();
      if missHandler != null {
        AskNext(victim, line);
      }
      assert State() == c1;
      if isStore {
        MarkOwn(line);
      }
    }

    method Replace(line: nat) returns (victim: nat)
      requires CacheOk(State()) && line < DIRTY && line !in Lines(Words(store))
      modifies this`store, this`reg, this`stats
      ensures (State(), victim) == Refilled(old(State()), line)
    {
      hide AllWordsOk, AtMostOnce, InOwnSet, Keyed, Lines, Words, Victimize;
      var (filled, nextReg, w) := Victimize(store, reg, line);
      store, reg, victim := filled, nextReg, w;
      if VALID + DIRTY <= victim < WORDS {
        stats := stats.(writebacks := stats.writebacks + 1);
      }
    }

    method MarkOwn(line: nat)
      requires StoreOk(store) && CheckTag(store, line).Some? && CheckTag(store, line).value < |Words(store)|
      modifies this`store
      ensures store == MarkDirty(old(store), CheckTag(old(store), line).value)
    {
      hide AllWordsOk, AtMostOnce, InOwnSet, Keyed, Words, MarkDirty;
      var hit := FindTag(line);
      store := MarkDirty(store, hit.value);
    }

    method AskNext(victim: nat, line: nat)
      requires missHandler != null && missHandler.Valid() && this !in missHandler.Repr
      requires AllOk(MissRequests(victim, line, linesz))
      modifies missHandler.Repr
      ensures missHandler.Valid()
      ensures missHandler.Chain() == RunChain(old(missHandler.Chain()), MissRequests(victim, line, linesz))
      decreases missHandler.Repr, 2
    {
      hide LinesInRange, AccessChain, RunChain, LineIn;
      ghost var t := missHandler.Chain();
      OneOrTwo(t, victim, line, linesz);
      if VALID + DIRTY <= victim < WORDS {
        missHandler.Access(LineIn(victim) * linesz, linesz, true);
      }
      missHandler.Access(line * linesz, linesz, false);
    }
  }

  lemma EmptyChain(rs: seq<Request>)
    requires AllOk(rs)
    ensures RunChain([], rs) == []
  {
  }

  lemma MissIs(c: Cache, store: bool, line: nat)
    requires CacheOk(c) && line < DIRTY && line !in Lines(Words(c.store))
    ensures var (c', victim) := Refilled(c, line);
      && StoreOk(c'.store) && CheckTag(c'.store, line).Some? && CheckTag(c'.store, line).value < |Words(c'.store)|
      && Miss(c, store, line) ==
           (if store then c'.(store := MarkDirty(c'.store, CheckTag(c'.store, line).value)) else c',
            MissRequests(victim, line, c.linesz))
  {
    VictimizeEffect(c.store, c.reg, line);
    var (c', victim) := Refilled(c, line);
    CheckTagFinds(c'.store, line);
  }

  lemma SameLines(c: Cache, c': Cache)
    requires CacheOk(c) && LinesInRange(c) && c'.store == c.store && c'.linesz == c.linesz
    ensures CacheOk(c') && LinesInRange(c')
  {
  }

  /** The requests of a miss, one after the other. */
  lemma OneOrTwo(chain: seq<Cache>, victim: nat, line: nat, linesz: nat)
    requires chain != [] && ChainOk(chain) && AllOk(MissRequests(victim, line, linesz))
    ensures var read := Request(line * linesz, linesz, false);
      var write := Request(LineIn(victim) * linesz, linesz, true);
      && RequestOk(read) && (IsDirty(victim) ==> RequestOk(write))
      && RunChain(chain, MissRequests(victim, line, linesz)) ==
           AccessChain(if IsDirty(victim) then AccessChain(chain, write) else chain, read)
  {
    hide LinesInRange, CacheOk, LineIn;
    var read := Request(line * linesz, linesz, false);
    var rs := MissRequests(victim, line, linesz);
    assert rs[|rs| - 1] == read;
    assert RequestOk(rs[|rs| - 1]);
    NothingAsked(chain);
    if IsDirty(victim) {
      var write := Request(LineIn(victim) * linesz, linesz, true);
      assert rs == [write, read] && RequestOk(rs[0]);
      assert rs[..1] == [write] && [write][..0] == [];
      assert RunChain(chain, [write]) == AccessChain(chain, write);
    } else {
      assert rs == [read] && rs[..0] == [];
    }
  }

  lemma ChainUnfolds(chain: seq<Cache>, r: Request)
    requires chain != [] && ChainOk(chain) && RequestOk(r)
    ensures AllOk(AccessOf(chain[0], r).1)
    ensures AccessChain(chain, r) == [AccessOf(chain[0], r).0] + RunChain(chain[1..], AccessOf(chain[0], r).1)
  {
    AskedOk(chain[0], r);
  }

  lemma NothingAsked(chain: seq<Cache>)
    requires ChainOk(chain)
    ensures RunChain(chain, []) == chain
  {
  }
}
