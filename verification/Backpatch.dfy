/**
 Labels, forward references and backpatching of m65f32asm.c over the code image, and the proof that
 patching is transparent: the image is the one that known labels would have given. How addresses map
 to the image and how references are encoded is a parameter; AsmTargets gives the assembler's own.
 */
module Backpatch {
  import opened Common

  type Word = bv32
  type Byte = bv8

  const MAX_CODE_BYTES: nat := 512 * 1024
  const MAX_LABELS: nat := 4096
  const MAX_FIXUPS: nat := 4096

  type Image = i: seq<Byte> | |i| == MAX_CODE_BYTES witness seq(MAX_CODE_BYTES, _ => 0)

  /** A label name, compared without case. */
  type LabelName = string

  // ------------------------------------------------------------------ words in the image

  type Quad = q: seq<Byte> | |q| == 4 witness [0, 0, 0, 0]

  /** A branch with its condition and link bit, or a jump with its opcode. */
  datatype RefKind = Branch(cond: Word, link: Word) | Jump(op: Word)

  /**
   position: where an address lies in the image; next: the address of the following word; bytes: the bytes
   of a word; refWord: the word of a reference at an address to a target, if the target can be encoded.
   */
  datatype Format = Format(
    position: Word -> nat,
    next: Word -> Word,
    bytes: Word -> Quad,
    refWord: (RefKind, Word, Word) -> Option<Word>)

  function WriteBytes(img: Image, p: nat, q: Quad): Image
    requires p + 4 <= MAX_CODE_BYTES
  {
    img[p := q[0]][p + 1 := q[1]][p + 2 := q[2]][p + 3 := q[3]]
  }

  predicate Apart(p: nat, q: nat) { p + 4 <= q || q + 4 <= p }

  lemma WritesCommute(img: Image, p: nat, v: Quad, q: nat, w: Quad)
    requires p + 4 <= MAX_CODE_BYTES && q + 4 <= MAX_CODE_BYTES && Apart(p, q)
    ensures WriteBytes(WriteBytes(img, p, v), q, w) == WriteBytes(WriteBytes(img, q, w), p, v)
  {
  }

  lemma LastWriteWins(img: Image, p: nat, v: Quad, w: Quad)
    requires p + 4 <= MAX_CODE_BYTES
    ensures WriteBytes(WriteBytes(img, p, v), p, w) == WriteBytes(img, p, w)
  {
  }

  datatype Fixup = Fixup(pos: nat, pc: Word, target: LabelName, kind: RefKind)

  // ------------------------------------------------------------------ one pass over the program

  datatype Item =
    | Code(word: Word)
    | Ref(kind: RefKind, target: LabelName)
    | Label(name: LabelName)
    | Org(address: Word)

  datatype AsmError =
    | CodeOverflow | DuplicateLabel | Misaligned | TooManyLabels | TooManyFixups | UndefinedLabel | UnsupportedMode

  datatype Result<T> = Ok(value: T) | Err(error: AsmError)

  /** labels: the defined ones; names: every name seen, defined or not. */
  datatype Asm = Asm(image: Image, pc: Word, maxPhy: nat, labels: map<LabelName, Word>, names: set<LabelName>,
                     fixups: seq<Fixup>)

  function Emit(fmt: Format, a: Asm, w: Word): Result<Asm>
  {
    var p := fmt.position(a.pc);
    if p + 3 >= MAX_CODE_BYTES then Err(CodeOverflow)
    else Ok(a.(image := WriteBytes(a.image, p, fmt.bytes(w)),
               maxPhy := if p + 4 > a.maxPhy then p + 4 else a.maxPhy,
               pc := fmt.next(a.pc)))
  }

  function AddName(a: Asm, l: LabelName): Result<Asm>
  {
    if l in a.names then Ok(a)
    else if |a.names| >= MAX_LABELS then Err(TooManyLabels)
    else Ok(a.(names := a.names + {l}))
  }

  /** A reference to a label that is not defined yet emits 0 and leaves a fixup. */
  function EmitForward(fmt: Format, a: Asm, kind: RefKind, l: LabelName): Result<Asm>
  {
    match AddName(a, l)
    case Err(e) => Err(e)
    case Ok(b) =>
      if |b.fixups| >= MAX_FIXUPS then Err(TooManyFixups)
      else Emit(fmt, b.(fixups := b.fixups + [Fixup(fmt.position(b.pc), b.pc, l, kind)]), 0)
  }

  function EmitKnown(fmt: Format, a: Asm, kind: RefKind, address: Word): Result<Asm>
  {
    match fmt.refWord(kind, a.pc, address)
    case None => Err(Misaligned)
    case Some(w) => Emit(fmt, a, w)
  }

  function Step(fmt: Format, a: Asm, item: Item): Result<Asm>
  {
    match item
    case Code(w) => Emit(fmt, a, w)
    case Ref(kind, l) => if l in a.labels then EmitKnown(fmt, a, kind, a.labels[l]) else EmitForward(fmt, a, kind, l)
    case Label(l) =>
      if l in a.labels then Err(DuplicateLabel)
      else
        match AddName(a, l) {
          case Err(e) => Err(e)
          case Ok(b) => Ok(b.(labels := b.labels[l := b.pc]))
        }
    case Org(address) => Ok(a.(pc := address))
  }

  function Assemble(fmt: Format, a: Asm, items: seq<Item>): Result<Asm>
    decreases |items|
  {
    if items == [] then Ok(a)
    else
      match Assemble(fmt, a, items[..|items| - 1])
      case Err(e) => Err(e)
      case Ok(b) => Step(fmt, b, items[|items| - 1])
  }

  // ------------------------------------------------------------------ fixups

  /** The image after the fixups, from the first to the last. */
  function Resolve(fmt: Format, img: Image, fixups: seq<Fixup>, labels: map<LabelName, Word>): Result<Image>
    requires FixupsFit(fixups)
    decreases |fixups|
  {
    if fixups == [] then Ok(img)
    else
      var last := fixups[|fixups| - 1];
      match Resolve(fmt, img, fixups[..|fixups| - 1], labels)
      case Err(e) => Err(e)
      case Ok(patched) =>
        if last.target !in labels then Err(UndefinedLabel)
        else
          match fmt.refWord(last.kind, last.pc, labels[last.target]) {
            case None => Err(Misaligned)
            case Some(w) => Ok(WriteBytes(patched, last.pos, fmt.bytes(w)))
          }
  }

  predicate FixupsFit(fixups: seq<Fixup>)
  {
    forall i :: 0 <= i < |fixups| ==> fixups[i].pos + 4 <= MAX_CODE_BYTES
  }

  // ------------------------------------------------------------------ the program with all labels known

  /** The pass that an assembler makes that knows every label beforehand. */
  function StepKnown(fmt: Format, table: map<LabelName, Word>, a: Asm, item: Item): Result<Asm>
  {
    match item
    case Code(w) => Emit(fmt, a, w)
    case Ref(kind, l) => if l in table then EmitKnown(fmt, a, kind, table[l]) else Err(UndefinedLabel)
    case Label(_) => Ok(a)
    case Org(address) => Ok(a.(pc := address))
  }

  function AssembleKnown(fmt: Format, table: map<LabelName, Word>, a: Asm, items: seq<Item>): Result<Asm>
    decreases |items|
  {
    if items == [] then Ok(a)
    else
      match AssembleKnown(fmt, table, a, items[..|items| - 1])
      case Err(e) => Err(e)
      case Ok(b) => StepKnown(fmt, table, b, items[|items| - 1])
  }

  predicate Emits(item: Item) { item.Code? || item.Ref? }

  /** The address of the next item after the items, and the positions of the words that they emit. */
  function PcAfter(fmt: Format, pc: Word, items: seq<Item>): Word
    decreases |items|
  {
    if items == [] then pc
    else
      var last := items[|items| - 1];
      if last.Org? then last.address
      else if Emits(last) then fmt.next(PcAfter(fmt, pc, items[..|items| - 1]))
      else PcAfter(fmt, pc, items[..|items| - 1])
  }

  function Positions(fmt: Format, pc: Word, items: seq<Item>): seq<nat>
    decreases |items|
  {
    if items == [] then []
    else
      var init := items[..|items| - 1];
      if Emits(items[|items| - 1]) then Positions(fmt, pc, init) + [fmt.position(PcAfter(fmt, pc, init))]
      else Positions(fmt, pc, init)
  }

  /** No two emitted words overlap in the image. */
  predicate NoOverlap(positions: seq<nat>)
  {
    forall i, j :: 0 <= i < j < |positions| ==> Apart(positions[i], positions[j])
  }

  // ------------------------------------------------------------------ patching is transparent

  predicate FixupsApart(fixups: seq<Fixup>, p: nat)
  {
    forall i :: 0 <= i < |fixups| ==> Apart(fixups[i].pos, p)
  }

  /** A write elsewhere may be made before or after the fixups. */
  lemma {:induction false} PatchCommutes(fmt: Format, img: Image, fixups: seq<Fixup>, labels: map<LabelName, Word>,
                                         p: nat, w: Quad)
    requires FixupsFit(fixups) && p + 4 <= MAX_CODE_BYTES && FixupsApart(fixups, p)
    requires Resolve(fmt, img, fixups, labels).Ok?
    ensures Resolve(fmt, WriteBytes(img, p, w), fixups, labels) ==
            Ok(WriteBytes(Resolve(fmt, img, fixups, labels).value, p, w))
    decreases |fixups|
  {
    if fixups != [] {
      var init, last := fixups[..|fixups| - 1], fixups[|fixups| - 1];
      PatchCommutes(fmt, img, init, labels, p, w);
      var patched := Resolve(fmt, img, init, labels).value;
      var word := fmt.refWord(last.kind, last.pc, labels[last.target]).value;
      WritesCommute(patched, p, w, last.pos, fmt.bytes(word));
    }
  }

  /** Every fixup has a defined label, and a branch is aligned. */
  predicate Resolvable(fmt: Format, fixups: seq<Fixup>, labels: map<LabelName, Word>)
  {
    forall i :: 0 <= i < |fixups| ==>
      fixups[i].target in labels && fmt.refWord(fixups[i].kind, fixups[i].pc, labels[fixups[i].target]).Some?
  }

  lemma {:induction false} ResolveSucceeds(fmt: Format, img: Image, fixups: seq<Fixup>, labels: map<LabelName, Word>)
    requires FixupsFit(fixups)
    ensures Resolve(fmt, img, fixups, labels).Ok? <==> Resolvable(fmt, fixups, labels)
    decreases |fixups|
  {
    if fixups != [] {
      var init := fixups[..|fixups| - 1];
      ResolveSucceeds(fmt, img, init, labels);
      assert fixups == init + [fixups[|fixups| - 1]];
    }
  }

  predicate Extends(table: map<LabelName, Word>, labels: map<LabelName, Word>)
  {
    forall l :: l in labels ==> l in table && table[l] == labels[l]
  }

  lemma EmitKeeps(fmt: Format, a: Asm, w: Word)
    requires Emit(fmt, a, w).Ok?
    ensures var b := Emit(fmt, a, w).value; b.labels == a.labels && b.fixups == a.fixups && b.pc == fmt.next(a.pc)
  {
  }

  lemma ForwardGrows(fmt: Format, a: Asm, kind: RefKind, l: LabelName)
    requires EmitForward(fmt, a, kind, l).Ok?
    ensures var b := EmitForward(fmt, a, kind, l).value;
            b.labels == a.labels && b.pc == fmt.next(a.pc)
            && b.fixups == a.fixups + [Fixup(fmt.position(a.pc), a.pc, l, kind)]
  {
  }

  /** One step keeps the labels and fixups there are and adds at most one of each. */
  lemma StepGrows(fmt: Format, a: Asm, item: Item)
    requires Step(fmt, a, item).Ok?
    ensures var b := Step(fmt, a, item).value;
            && Extends(b.labels, a.labels)
            && (b.fixups == a.fixups
                || (item.Ref? && item.target !in a.labels
                    && b.fixups == a.fixups + [Fixup(fmt.position(a.pc), a.pc, item.target, item.kind)]))
            && b.pc == (if item.Org? then item.address else if Emits(item) then fmt.next(a.pc) else a.pc)
  {
    if item.Code? {
      EmitKeeps(fmt, a, item.word);
    } else if item.Ref? {
      if item.target in a.labels {
        EmitKeeps(fmt, a, fmt.refWord(item.kind, a.pc, a.labels[item.target]).value);
      } else {
        ForwardGrows(fmt, a, item.kind, item.target);
      }
    }
  }

  /** The fixups made so far lie at emitted words. */
  predicate FixupsAt(fixups: seq<Fixup>, positions: seq<nat>)
  {
    forall i :: 0 <= i < |fixups| ==> fixups[i].pos in positions
  }

  /** What patching the pass so far with the table would give is what the pass with known labels gives. */
  ghost predicate SameImage(fmt: Format, a: Asm, b: Asm, table: map<LabelName, Word>)
  {
    && FixupsFit(a.fixups) && a.pc == b.pc && a.maxPhy == b.maxPhy
    && Resolve(fmt, a.image, a.fixups, table) == Ok(b.image)
  }

  lemma EmitSame(fmt: Format, a: Asm, b: Asm, table: map<LabelName, Word>, w: Word)
    requires SameImage(fmt, a, b, table) && FixupsApart(a.fixups, fmt.position(a.pc)) && Emit(fmt, a, w).Ok?
    ensures Emit(fmt, b, w).Ok? && SameImage(fmt, Emit(fmt, a, w).value, Emit(fmt, b, w).value, table)
  {
    PatchCommutes(fmt, a.image, a.fixups, table, fmt.position(a.pc), fmt.bytes(w));
  }

  lemma ForwardSame(fmt: Format, a: Asm, b: Asm, table: map<LabelName, Word>, kind: RefKind, l: LabelName, w: Word)
    requires SameImage(fmt, a, b, table) && FixupsApart(a.fixups, fmt.position(a.pc))
             && EmitForward(fmt, a, kind, l).Ok?
    requires l in table && fmt.refWord(kind, a.pc, table[l]) == Some(w)
    ensures Emit(fmt, b, w).Ok? && SameImage(fmt, EmitForward(fmt, a, kind, l).value, Emit(fmt, b, w).value, table)
  {
    var p := fmt.position(a.pc);
    var f := Fixup(p, a.pc, l, kind);
    var c := EmitForward(fmt, a, kind, l).value;
    PatchCommutes(fmt, a.image, a.fixups, table, p, fmt.bytes(0));
    assert c.fixups == a.fixups + [f] && c.image == WriteBytes(a.image, p, fmt.bytes(0));
    assert (a.fixups + [f])[..|a.fixups + [f]| - 1] == a.fixups;
    LastWriteWins(b.image, p, fmt.bytes(0), fmt.bytes(w));
  }

  lemma KnownSame(fmt: Format, a: Asm, b: Asm, table: map<LabelName, Word>, kind: RefKind, l: LabelName)
    requires SameImage(fmt, a, b, table) && FixupsApart(a.fixups, fmt.position(a.pc))
    requires l in a.labels && EmitKnown(fmt, a, kind, a.labels[l]).Ok? && l in table && table[l] == a.labels[l]
    ensures EmitKnown(fmt, b, kind, table[l]).Ok?
    ensures SameImage(fmt, EmitKnown(fmt, a, kind, a.labels[l]).value, EmitKnown(fmt, b, kind, table[l]).value, table)
  {
    EmitSame(fmt, a, b, table, fmt.refWord(kind, a.pc, a.labels[l]).value);
  }

  lemma UnknownSame(fmt: Format, a: Asm, b: Asm, table: map<LabelName, Word>, kind: RefKind, l: LabelName)
    requires SameImage(fmt, a, b, table) && FixupsApart(a.fixups, fmt.position(a.pc))
    requires EmitForward(fmt, a, kind, l).Ok? && Resolvable(fmt, EmitForward(fmt, a, kind, l).value.fixups, table)
    ensures l in table && EmitKnown(fmt, b, kind, table[l]).Ok?
    ensures SameImage(fmt, EmitForward(fmt, a, kind, l).value, EmitKnown(fmt, b, kind, table[l]).value, table)
  {
    ForwardGrows(fmt, a, kind, l);
    var fixups := EmitForward(fmt, a, kind, l).value.fixups;
    assert fixups[|fixups| - 1] == Fixup(fmt.position(a.pc), a.pc, l, kind);
    ForwardSame(fmt, a, b, table, kind, l, fmt.refWord(kind, a.pc, table[l]).value);
  }

  /** Neither a label nor an origin touches the image. */
  lemma QuietSame(fmt: Format, a: Asm, b: Asm, table: map<LabelName, Word>, item: Item)
    requires SameImage(fmt, a, b, table) && Step(fmt, a, item).Ok? && !Emits(item)
    ensures StepKnown(fmt, table, b, item).Ok?
    ensures SameImage(fmt, Step(fmt, a, item).value, StepKnown(fmt, table, b, item).value, table)
  {
  }

  lemma StepSame(fmt: Format, a: Asm, b: Asm, table: map<LabelName, Word>, item: Item)
    requires SameImage(fmt, a, b, table) && Step(fmt, a, item).Ok?
             && (Emits(item) ==> FixupsApart(a.fixups, fmt.position(a.pc)))
    requires Extends(table, Step(fmt, a, item).value.labels) && Resolvable(fmt, Step(fmt, a, item).value.fixups, table)
    ensures StepKnown(fmt, table, b, item).Ok?
            && SameImage(fmt, Step(fmt, a, item).value, StepKnown(fmt, table, b, item).value, table)
  {
    StepGrows(fmt, a, item);
    if item.Code? {
      EmitSame(fmt, a, b, table, item.word);
    } else if item.Ref? {
      if item.target in a.labels {
        KnownSame(fmt, a, b, table, item.kind, item.target);
      } else {
        UnknownSame(fmt, a, b, table, item.kind, item.target);
      }
    } else {
      QuietSame(fmt, a, b, table, item);
    }
  }

  lemma {:induction false} PassSame(fmt: Format, a: Asm, items: seq<Item>, table: map<LabelName, Word>)
    requires a.fixups == [] && Assemble(fmt, a, items).Ok? && NoOverlap(Positions(fmt, a.pc, items))
    requires Extends(table, Assemble(fmt, a, items).value.labels)
             && Resolvable(fmt, Assemble(fmt, a, items).value.fixups, table)
    ensures AssembleKnown(fmt, table, a, items).Ok?
    ensures SameImage(fmt, Assemble(fmt, a, items).value, AssembleKnown(fmt, table, a, items).value, table)
    ensures FixupsAt(Assemble(fmt, a, items).value.fixups, Positions(fmt, a.pc, items))
    ensures Assemble(fmt, a, items).value.pc == PcAfter(fmt, a.pc, items)
    decreases |items|
  {
    if items != [] {
      var init, last := items[..|items| - 1], items[|items| - 1];
      var c := Assemble(fmt, a, init).value;
      StepGrows(fmt, c, last);
      PrefixResolvable(fmt, c.fixups, Assemble(fmt, a, items).value.fixups, table);
      PrefixApart(Positions(fmt, a.pc, init), Positions(fmt, a.pc, items));
      PassSame(fmt, a, init, table);
      if Emits(last) { LastApart(c.fixups, Positions(fmt, a.pc, init), fmt.position(c.pc)); }
      StepSame(fmt, c, AssembleKnown(fmt, table, a, init).value, table, last);
    }
  }

  lemma PrefixResolvable(fmt: Format, before: seq<Fixup>, after: seq<Fixup>, table: map<LabelName, Word>)
    requires before <= after && Resolvable(fmt, after, table)
    ensures Resolvable(fmt, before, table)
  {
  }

  lemma PrefixApart(before: seq<nat>, after: seq<nat>)
    requires before <= after && NoOverlap(after)
    ensures NoOverlap(before)
  {
  }

  lemma LastApart(fixups: seq<Fixup>, positions: seq<nat>, p: nat)
    requires FixupsAt(fixups, positions) && NoOverlap(positions + [p])
    ensures FixupsApart(fixups, p)
  {
    forall i | 0 <= i < |fixups| ensures Apart(fixups[i].pos, p)
    {
      var j :| 0 <= j < |positions| && positions[j] == fixups[i].pos;
      assert (positions + [p])[j] == fixups[i].pos && (positions + [p])[|positions|] == p;
    }
  }

  /**
   Backpatching is transparent: when a program assembles and its fixups resolve, and no two emitted words
   overlap, the patched image is the one that an assembler knowing every label would have emitted.
   */
  lemma BackpatchTransparent(fmt: Format, a: Asm, items: seq<Item>)
    requires a.fixups == [] && Assemble(fmt, a, items).Ok? && NoOverlap(Positions(fmt, a.pc, items))
    requires Resolvable(fmt, Assemble(fmt, a, items).value.fixups, Assemble(fmt, a, items).value.labels)
    ensures var b := Assemble(fmt, a, items).value;
            && FixupsFit(b.fixups)
            && AssembleKnown(fmt, b.labels, a, items).Ok?
            && Resolve(fmt, b.image, b.fixups, b.labels) == Ok(AssembleKnown(fmt, b.labels, a, items).value.image)
  {
    PassSame(fmt, a, items, Assemble(fmt, a, items).value.labels);
  }

  // ------------------------------------------------------------------ the words in the image

  /** The word that the item emits at pc. */
  function WordAt(fmt: Format, table: map<LabelName, Word>, pc: Word, item: Item): Option<Word>
  {
    match item
    case Code(w) => Some(w)
    case Ref(kind, l) => if l in table then fmt.refWord(kind, pc, table[l]) else None
    case _ => None
  }

  /** The image holds the word w at position p. */
  predicate HoldsWord(fmt: Format, img: Image, p: nat, w: Option<Word>)
  {
    w.Some? && p + 4 <= MAX_CODE_BYTES && img[p..p + 4] == fmt.bytes(w.value)
  }

  lemma StepKnownEmits(fmt: Format, table: map<LabelName, Word>, a: Asm, item: Item)
    requires StepKnown(fmt, table, a, item).Ok? && Emits(item)
    ensures var b, p := StepKnown(fmt, table, a, item).value, fmt.position(a.pc);
            && HoldsWord(fmt, b.image, p, WordAt(fmt, table, a.pc, item)) && b.pc == fmt.next(a.pc)
            && b.image == WriteBytes(a.image, p, fmt.bytes(WordAt(fmt, table, a.pc, item).value))
  {
  }

  lemma StepKnownKeeps(fmt: Format, table: map<LabelName, Word>, a: Asm, item: Item)
    requires StepKnown(fmt, table, a, item).Ok? && !Emits(item)
    ensures var b := StepKnown(fmt, table, a, item).value;
            b.image == a.image && b.pc == if item.Org? then item.address else a.pc
  {
  }

  lemma {:induction false} KnownPc(fmt: Format, table: map<LabelName, Word>, a: Asm, items: seq<Item>)
    requires AssembleKnown(fmt, table, a, items).Ok?
    ensures AssembleKnown(fmt, table, a, items).value.pc == PcAfter(fmt, a.pc, items)
    decreases |items|
  {
    if items != [] {
      var init, last := items[..|items| - 1], items[|items| - 1];
      KnownPc(fmt, table, a, init);
      var b := AssembleKnown(fmt, table, a, init).value;
      if Emits(last) { StepKnownEmits(fmt, table, b, last); } else { StepKnownKeeps(fmt, table, b, last); }
    }
  }

  /** The position of every item that emits is in the list. */
  lemma {:induction false} PositionListed(fmt: Format, pc: Word, items: seq<Item>, i: nat)
    requires i < |items| && Emits(items[i])
    ensures fmt.position(PcAfter(fmt, pc, items[..i])) in Positions(fmt, pc, items)
    decreases |items|
  {
    if i < |items| - 1 {
      assert items[..|items| - 1][..i] == items[..i];
      PositionListed(fmt, pc, items[..|items| - 1], i);
    }
  }

  lemma ListedApart(positions: seq<nat>, p: nat, q: nat)
    requires NoOverlap(positions + [q]) && p in positions
    ensures Apart(p, q)
  {
    var k :| 0 <= k < |positions| && positions[k] == p;
    assert (positions + [q])[k] == p && (positions + [q])[|positions|] == q;
  }

  lemma WriteElsewhere(fmt: Format, img: Image, p: nat, w: Option<Word>, q: nat, v: Quad)
    requires HoldsWord(fmt, img, p, w) && Apart(p, q) && q + 4 <= MAX_CODE_BYTES
    ensures HoldsWord(fmt, WriteBytes(img, q, v), p, w)
  {
  }

  /** Without overlap every word stays where it was emitted. */
  lemma {:induction false} KnownWord(fmt: Format, table: map<LabelName, Word>, a: Asm, items: seq<Item>, i: nat)
    requires AssembleKnown(fmt, table, a, items).Ok? && NoOverlap(Positions(fmt, a.pc, items))
    requires i < |items| && Emits(items[i])
    ensures var pc := PcAfter(fmt, a.pc, items[..i]);
            HoldsWord(fmt, AssembleKnown(fmt, table, a, items).value.image, fmt.position(pc),
                      WordAt(fmt, table, pc, items[i]))
    decreases |items|
  {
    var init, last := items[..|items| - 1], items[|items| - 1];
    var b := AssembleKnown(fmt, table, a, init).value;
    KnownPc(fmt, table, a, init);
    if i == |items| - 1 {
      StepKnownEmits(fmt, table, b, last);
    } else {
      assert init[..i] == items[..i] && init[i] == items[i];
      PrefixApart(Positions(fmt, a.pc, init), Positions(fmt, a.pc, items));
      KnownWord(fmt, table, a, init, i);
      KnownWordStays(fmt, table, b, last, Positions(fmt, a.pc, init), fmt.position(PcAfter(fmt, a.pc, items[..i])),
                     WordAt(fmt, table, PcAfter(fmt, a.pc, items[..i]), items[i]))
        by { PositionListed(fmt, a.pc, init, i); }
    }
  }

  lemma KnownWordStays(fmt: Format, table: map<LabelName, Word>, b: Asm, last: Item, positions: seq<nat>, p: nat,
                       w: Option<Word>)
    requires StepKnown(fmt, table, b, last).Ok? && HoldsWord(fmt, b.image, p, w) && p in positions
    requires Emits(last) ==> NoOverlap(positions + [fmt.position(b.pc)])
    ensures HoldsWord(fmt, StepKnown(fmt, table, b, last).value.image, p, w)
  {
    if Emits(last) {
      StepKnownEmits(fmt, table, b, last);
      var q := fmt.position(b.pc);
      ListedApart(positions, p, q);
      WriteElsewhere(fmt, b.image, p, w, q, fmt.bytes(WordAt(fmt, table, b.pc, last).value));
    } else {
      StepKnownKeeps(fmt, table, b, last);
    }
  }

  /** After the fixups the image holds, for every reference, the word that its label's address gives. */
  lemma PatchedReference(fmt: Format, a: Asm, items: seq<Item>, i: nat)
    requires a.fixups == [] && Assemble(fmt, a, items).Ok? && NoOverlap(Positions(fmt, a.pc, items))
    requires Resolvable(fmt, Assemble(fmt, a, items).value.fixups, Assemble(fmt, a, items).value.labels)
    requires i < |items| && items[i].Ref?
    ensures var b, pc := Assemble(fmt, a, items).value, PcAfter(fmt, a.pc, items[..i]);
            && FixupsFit(b.fixups) && Resolve(fmt, b.image, b.fixups, b.labels).Ok? && items[i].target in b.labels
            && HoldsWord(fmt, Resolve(fmt, b.image, b.fixups, b.labels).value, fmt.position(pc),
                         fmt.refWord(items[i].kind, pc, b.labels[items[i].target]))
  {
    BackpatchTransparent(fmt, a, items);
    KnownWord(fmt, Assemble(fmt, a, items).value.labels, a, items, i);
  }

  /** Likewise for every plain instruction word. */
  lemma PatchedCode(fmt: Format, a: Asm, items: seq<Item>, i: nat)
    requires a.fixups == [] && Assemble(fmt, a, items).Ok? && NoOverlap(Positions(fmt, a.pc, items))
    requires Resolvable(fmt, Assemble(fmt, a, items).value.fixups, Assemble(fmt, a, items).value.labels)
    requires i < |items| && items[i].Code?
    ensures var b := Assemble(fmt, a, items).value;
            && FixupsFit(b.fixups) && Resolve(fmt, b.image, b.fixups, b.labels).Ok?
            && HoldsWord(fmt, Resolve(fmt, b.image, b.fixups, b.labels).value,
                         fmt.position(PcAfter(fmt, a.pc, items[..i])), Some(items[i].word))
  {
    BackpatchTransparent(fmt, a, items);
    KnownWord(fmt, Assemble(fmt, a, items).value.labels, a, items, i);
  }

  // ------------------------------------------------------------------ the addresses of labels

  lemma StepPc(fmt: Format, a: Asm, item: Item)
    requires Step(fmt, a, item).Ok?
    ensures Step(fmt, a, item).value.pc ==
            if item.Org? then item.address else if Emits(item) then fmt.next(a.pc) else a.pc
  {
  }

  lemma {:induction false} AssemblePc(fmt: Format, a: Asm, items: seq<Item>)
    requires Assemble(fmt, a, items).Ok?
    ensures Assemble(fmt, a, items).value.pc == PcAfter(fmt, a.pc, items)
    decreases |items|
  {
    if items != [] {
      AssemblePc(fmt, a, items[..|items| - 1]);
      StepPc(fmt, Assemble(fmt, a, items[..|items| - 1]).value, items[|items| - 1]);
    }
  }

  /** A label keeps the address it was given; a new one gets the pc. */
  lemma StepLabels(fmt: Format, a: Asm, item: Item, l: LabelName)
    requires Step(fmt, a, item).Ok?
    ensures var b := Step(fmt, a, item).value;
            && (l in a.labels ==> item != Label(l) && l in b.labels && b.labels[l] == a.labels[l])
            && (item == Label(l) ==> l in b.labels && b.labels[l] == a.pc)
            && (l in b.labels && l !in a.labels ==> item == Label(l))
  {
  }

  /** A label's address is that of the item behind it, and only the program's label items define labels. */
  lemma {:induction false} LabelAddress(fmt: Format, a: Asm, items: seq<Item>, l: LabelName, i: nat)
    requires Assemble(fmt, a, items).Ok? && a.labels == map[]
    ensures var b := Assemble(fmt, a, items).value;
            && (i < |items| && items[i] == Label(l) ==>
                  l in b.labels && b.labels[l] == PcAfter(fmt, a.pc, items[..i]))
            && (l in b.labels ==> Label(l) in items)
    decreases |items|
  {
    if items != [] {
      var n := |items| - 1;
      var before := Assemble(fmt, a, items[..n]).value;
      LabelAddress(fmt, a, items[..n], l, i);
      AssemblePc(fmt, a, items[..n]);
      StepLabels(fmt, before, items[n], l);
      if i < n { assert items[..n][i] == items[i] && items[..n][..i] == items[..i]; }
      assert items == items[..n] + [items[n]];
    }
  }

  // ------------------------------------------------------------------ above the code

  /** Above the end of the code the image holds padding. */
  predicate PaddedAbove(img: Image, end: nat, pad: Byte) { forall k :: end <= k < MAX_CODE_BYTES ==> img[k] == pad }

  /** Everything emitted, and every word still to be patched, lies below maxPhy. */
  predicate Contained(a: Asm, pad: Byte)
  {
    && a.maxPhy <= MAX_CODE_BYTES && PaddedAbove(a.image, a.maxPhy, pad)
    && forall k :: 0 <= k < |a.fixups| ==> a.fixups[k].pos + 4 <= a.maxPhy
  }

  lemma EmitContained(fmt: Format, a: Asm, w: Word, pad: Byte)
    requires Emit(fmt, a, w).Ok? && Contained(a, pad)
    ensures Contained(Emit(fmt, a, w).value, pad) && fmt.position(a.pc) + 4 <= Emit(fmt, a, w).value.maxPhy
  {
  }

  lemma ForwardEmits(fmt: Format, a: Asm, kind: RefKind, l: LabelName)
    requires EmitForward(fmt, a, kind, l).Ok?
    ensures Emit(fmt, a, 0).Ok?
    ensures var b, c := EmitForward(fmt, a, kind, l).value, Emit(fmt, a, 0).value;
            b.image == c.image && b.maxPhy == c.maxPhy
  {
  }

  lemma ForwardContained(fmt: Format, a: Asm, kind: RefKind, l: LabelName, pad: Byte)
    requires EmitForward(fmt, a, kind, l).Ok? && Contained(a, pad)
    ensures Contained(EmitForward(fmt, a, kind, l).value, pad)
  {
    ForwardGrows(fmt, a, kind, l);
    ForwardEmits(fmt, a, kind, l);
    EmitContained(fmt, a, 0, pad);
    EmitKeeps(fmt, a, 0);
    OneMoreFixup(a, EmitForward(fmt, a, kind, l).value, Emit(fmt, a, 0).value, pad);
  }

  lemma OneMoreFixup(a: Asm, b: Asm, c: Asm, pad: Byte)
    requires Contained(c, pad) && c.fixups == a.fixups && b.image == c.image && b.maxPhy == c.maxPhy
    requires |b.fixups| == |a.fixups| + 1 && b.fixups[..|a.fixups|] == a.fixups
             && b.fixups[|a.fixups|].pos + 4 <= c.maxPhy
    ensures Contained(b, pad)
  {
    forall k | 0 <= k < |b.fixups| ensures b.fixups[k].pos + 4 <= b.maxPhy
    {
      if k < |a.fixups| { assert b.fixups[k] == a.fixups[k]; }
    }
  }

  lemma StepContained(fmt: Format, a: Asm, item: Item, pad: Byte)
    requires Step(fmt, a, item).Ok? && Contained(a, pad)
    ensures Contained(Step(fmt, a, item).value, pad)
  {
    if item.Code? {
      EmitContained(fmt, a, item.word, pad);
    } else if item.Ref? {
      if item.target in a.labels {
        EmitContained(fmt, a, fmt.refWord(item.kind, a.pc, a.labels[item.target]).value, pad);
      } else {
        ForwardContained(fmt, a, item.kind, item.target, pad);
      }
    }
  }

  lemma {:induction false} AssembleContained(fmt: Format, a: Asm, items: seq<Item>, pad: Byte)
    requires Assemble(fmt, a, items).Ok? && Contained(a, pad)
    ensures Contained(Assemble(fmt, a, items).value, pad)
    decreases |items|
  {
    if items != [] {
      AssembleContained(fmt, a, items[..|items| - 1], pad);
      StepContained(fmt, Assemble(fmt, a, items[..|items| - 1]).value, items[|items| - 1], pad);
    }
  }

  lemma {:induction false} ResolvePads(fmt: Format, img: Image, fixups: seq<Fixup>, labels: map<LabelName, Word>,
                                       end: nat, pad: Byte)
    requires end <= MAX_CODE_BYTES && PaddedAbove(img, end, pad)
    requires FixupsFit(fixups) && Resolve(fmt, img, fixups, labels).Ok?
    requires forall k :: 0 <= k < |fixups| ==> fixups[k].pos + 4 <= end
    ensures PaddedAbove(Resolve(fmt, img, fixups, labels).value, end, pad)
    decreases |fixups|
  {
    if fixups != [] { ResolvePads(fmt, img, fixups[..|fixups| - 1], labels, end, pad); }
  }

  /** Assembling and patching leave the padding above the code alone. */
  lemma ProgramPadded(fmt: Format, a: Asm, items: seq<Item>, pad: Byte)
    requires Assemble(fmt, a, items).Ok? && Contained(a, pad)
    ensures var b := Assemble(fmt, a, items).value;
            && b.maxPhy <= MAX_CODE_BYTES && FixupsFit(b.fixups)
            && (Resolve(fmt, b.image, b.fixups, b.labels).Ok? ==>
                  PaddedAbove(Resolve(fmt, b.image, b.fixups, b.labels).value, b.maxPhy, pad))
  {
    AssembleContained(fmt, a, items, pad);
    var b := Assemble(fmt, a, items).value;
    if Resolve(fmt, b.image, b.fixups, b.labels).Ok? { ResolvePads(fmt, b.image, b.fixups, b.labels, b.maxPhy, pad); }
  }

  /** Without the condition on labels and alignment the fixups are refused. */
  lemma UnresolvedRefused(fmt: Format, a: Asm, items: seq<Item>)
    requires Assemble(fmt, a, items).Ok? && FixupsFit(Assemble(fmt, a, items).value.fixups)
    requires !Resolvable(fmt, Assemble(fmt, a, items).value.fixups, Assemble(fmt, a, items).value.labels)
    ensures Resolve(fmt, Assemble(fmt, a, items).value.image, Assemble(fmt, a, items).value.fixups,
                    Assemble(fmt, a, items).value.labels).Err?
  {
    ResolveSucceeds(fmt, Assemble(fmt, a, items).value.image, Assemble(fmt, a, items).value.fixups,
                    Assemble(fmt, a, items).value.labels);
  }
}
