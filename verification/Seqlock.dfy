/**
 The answer table under interleaving (answer_table.rs): every store of a publish and every load of
 a lookup is a step of its own. A lookup that is not torn read one single publish.
 */
module Seqlock {
  import opened Wrappers
  import opened AnswerTable

  datatype Copy = Copy(generation: nat, data: Image)

  /** The publisher: which copy it writes, what, and the store that comes next. */
  datatype Writer = WIdle | Writing(copy: nat, image: Image, stage: nat)

  /** What a lookup has loaded so far. */
  datatype Partial = Partial(accountsFor: nat, publishedTick: nat, shortAddress: bv8, groups: bv32, word: bv32)

  /** The interrupt: the copy it took for live, the load that comes next, and the generation it saw first. */
  datatype Reader = RIdle | Reading(q: Query, copy: nat, stage: nat, before: nat, got: Partial, startFlips: nat)

  /** A finished lookup, and whether the live copy had changed meanwhile. */
  datatype Finished = Finished(q: Query, read: LiveRead, overtaken: bool)

  datatype Table = Table(
    copies: seq<Copy>,
    live: nat,
    writer: Writer,
    reader: Reader,
    flips: nat,
    published: set<Image>,
    finished: seq<Finished>)

  const GROUPS_STAGE := 4
  const SEAL_STAGE := GROUPS_STAGE + 1 + ANSWER_ENTRIES
  const FLIP_STAGE := SEAL_STAGE + 1

  datatype Move = StartPublish(image: Image) | WriterStep | StartLookup(q: Query) | ReaderStep

  /** One field of the image stored. */
  function StoreField(data: Image, image: Image, stage: nat): (r: Image)
    requires ImageOk(data) && ImageOk(image) && 1 <= stage < SEAL_STAGE
    ensures ImageOk(r)
  {
    if stage == 1 then data.(accountsFor := image.accountsFor)
    else if stage == 2 then data.(publishedTick := image.publishedTick)
    else if stage == 3 then data.(shortAddress := image.shortAddress)
    else if stage == 4 then data.(groups := image.groups)
    else data.(entries := data.entries[stage - 5 := image.entries[stage - 5]])
  }

  predicate WriterOk(t: Table) {
    t.writer.Writing? ==> t.writer.copy < 2 && ImageOk(t.writer.image) && t.writer.stage <= FLIP_STAGE
  }

  predicate Shaped(t: Table) {
    && |t.copies| == 2 && ImageOk(t.copies[0].data) && ImageOk(t.copies[1].data) && t.live < 2 && WriterOk(t)
    && (t.reader.Reading? ==> t.reader.copy < 2 && t.reader.stage <= 6)
  }

  function WriteStep(t: Table): Table
    requires Shaped(t) && t.writer.Writing?
  {
    var w := t.writer;
    var c := t.copies[w.copy];
    if w.stage == 0 then
      t.(copies := t.copies[w.copy := c.(generation := c.generation + 1)], writer := w.(stage := 1))
    else if w.stage < SEAL_STAGE then
      t.(copies := t.copies[w.copy := c.(data := StoreField(c.data, w.image, w.stage))], writer := w.(stage := w.stage + 1))
    else if w.stage == SEAL_STAGE then
      t.(copies := t.copies[w.copy := c.(generation := c.generation + 1)], writer := w.(stage := FLIP_STAGE),
         published := t.published + {w.image})
    else t.(live := w.copy, flips := t.flips + 1, writer := WIdle)
  }

  function IndexOf(r: Reader): (i: Option<nat>)
    requires r.Reading?
    ensures i.Some? ==> i.value < ANSWER_ENTRIES
  {
    EntryIndex(r.q, r.got.shortAddress, r.got.groups)
  }

  function ReadOf(r: Reader, generation: nat): LiveRead
    requires r.Reading?
  {
    LiveRead(!(r.before % 2 == 0 && generation == r.before), r.got.accountsFor, r.got.publishedTick, r.got.shortAddress,
             IndexOf(r), r.got.word)
  }

  function ReadStep(t: Table): Table
    requires Shaped(t) && t.reader.Reading?
  {
    var r := t.reader;
    var c := t.copies[r.copy];
    if r.stage == 0 then t.(reader := if c.generation == 0 then RIdle else r.(before := c.generation, stage := 1))
    else if r.stage == 1 then t.(reader := r.(got := r.got.(accountsFor := c.data.accountsFor), stage := 2))
    else if r.stage == 2 then t.(reader := r.(got := r.got.(publishedTick := c.data.publishedTick), stage := 3))
    else if r.stage == 3 then t.(reader := r.(got := r.got.(shortAddress := c.data.shortAddress), stage := 4))
    else if r.stage == 4 then t.(reader := r.(got := r.got.(groups := c.data.groups), stage := 5))
    else if r.stage == 5 then
      var i := IndexOf(r);
      t.(reader := r.(got := r.got.(word := if i.Some? then c.data.entries[i.value] else 0), stage := 6))
    else
      t.(reader := RIdle, finished := t.finished + [Finished(r.q, ReadOf(r, c.generation), t.flips != r.startFlips)])
  }

  const NOTHING := Partial(0, 0, 0, 0, 0)

  function Step(t: Table, m: Move): (r: Table)
    requires Shaped(t)
    ensures Shaped(r)
  {
    match m
    case StartPublish(image) => if t.writer.WIdle? && ImageOk(image) then t.(writer := Writing(1 - t.live, image, 0)) else t
    case WriterStep => if t.writer.Writing? then WriteStep(t) else t
    case StartLookup(q) => if t.reader.RIdle? then t.(reader := Reading(q, t.live, 0, 0, NOTHING, t.flips)) else t
    case ReaderStep => if t.reader.Reading? then ReadStep(t) else t
  }

  // ---- The invariant ----

  /** The stores made so far. */
  predicate Stored(data: Image, image: Image, stage: nat)
    requires ImageOk(data) && ImageOk(image)
  {
    && (stage > 1 ==> data.accountsFor == image.accountsFor) && (stage > 2 ==> data.publishedTick == image.publishedTick)
    && (stage > 3 ==> data.shortAddress == image.shortAddress) && (stage > 4 ==> data.groups == image.groups)
    && forall k | 0 <= k < ANSWER_ENTRIES && k < stage - 5 :: data.entries[k] == image.entries[k]
  }

  /** A copy is odd while it is written, and otherwise holds a whole publish. */
  predicate CopyInv(t: Table, j: nat)
    requires Shaped(t) && j < 2
  {
    var c := t.copies[j];
    if t.writer.Writing? && t.writer.copy == j && 1 <= t.writer.stage <= SEAL_STAGE then
      c.generation % 2 == 1 && Stored(c.data, t.writer.image, t.writer.stage)
    else c.generation % 2 == 0 && (c.generation > 0 ==> c.data in t.published)
  }

  /** As long as the generation is the one seen first, everything loaded is what the copy holds. */
  predicate Current(r: Reader, c: Copy)
    requires r.Reading? && ImageOk(c.data)
  {
    && (r.stage > 1 ==> r.got.accountsFor == c.data.accountsFor) && (r.stage > 2 ==> r.got.publishedTick == c.data.publishedTick)
    && (r.stage > 3 ==> r.got.shortAddress == c.data.shortAddress) && (r.stage > 4 ==> r.got.groups == c.data.groups)
    && (r.stage > 5 ==> r.got.word == if IndexOf(r).Some? then c.data.entries[IndexOf(r).value] else 0)
  }

  predicate ReaderInv(t: Table)
    requires Shaped(t)
  {
    t.reader.Reading? ==>
      var r := t.reader;
      var c := t.copies[r.copy];
      && r.startFlips <= t.flips
      && (t.flips == r.startFlips ==> r.copy == t.live)
      && (r.stage >= 1 ==>
            && 0 < r.before <= c.generation
            && (t.flips == r.startFlips ==> c.generation == r.before)
            && (c.generation == r.before && r.before % 2 == 0 ==> Current(r, c)))
  }

  /** A finished lookup that is not torn is whole; a torn one was overtaken by a publish. */
  ghost predicate Sound(t: Table, f: Finished) {
    && (f.read.torn ==> f.overtaken)
    && (!f.read.torn ==> exists i: Image :: i in t.published && ImageOk(i) && WholeOf(f.read, i, f.q))
  }

  ghost predicate Inv(t: Table) {
    && Shaped(t) && CopyInv(t, 0) && CopyInv(t, 1) && ReaderInv(t)
    && (t.writer.Writing? ==> t.writer.copy == 1 - t.live)
    && (forall i | i in t.published :: ImageOk(i))
    && forall k | 0 <= k < |t.finished| :: Sound(t, t.finished[k])
  }

  // ---- Every step keeps it ----

  lemma StoreKeeps(data: Image, image: Image, stage: nat)
    requires ImageOk(data) && ImageOk(image) && 1 <= stage < SEAL_STAGE && Stored(data, image, stage)
    ensures Stored(StoreField(data, image, stage), image, stage + 1)
  {
  }

  lemma AllStored(data: Image, image: Image)
    requires ImageOk(data) && ImageOk(image) && Stored(data, image, SEAL_STAGE)
    ensures data == image
  {
    assert data.entries == image.entries;
  }

  lemma SoundStays(t: Table, u: Table, f: Finished)
    requires Sound(t, f) && t.published <= u.published
    ensures Sound(u, f)
  {
  }

  lemma WriterKeeps(t: Table)
    requires Inv(t) && t.writer.Writing?
    ensures Inv(WriteStep(t))
  {
    hide WholeOf, EntryIndex, Stored, StoreField, Sound;
    var w, u := t.writer, WriteStep(t);
    var c := t.copies[w.copy];
    if 1 <= w.stage < SEAL_STAGE {
      StoreKeeps(c.data, w.image, w.stage);
    } else if w.stage == SEAL_STAGE {
      AllStored(c.data, w.image);
    } else if w.stage == 0 {
      NothingStored(c.data, w.image);
    }
    forall k | 0 <= k < |u.finished| ensures Sound(u, u.finished[k]) {
      SoundStays(t, u, t.finished[k]);
    }
  }

  lemma NothingStored(data: Image, image: Image)
    requires ImageOk(data) && ImageOk(image)
    ensures Stored(data, image, 1)
  {
  }

  lemma ReaderKeeps(t: Table)
    requires Inv(t) && t.reader.Reading?
    ensures Inv(ReadStep(t))
  {
    hide EntryIndex, Stored, Sound;
    var r, u := t.reader, ReadStep(t);
    forall k | 0 <= k < |t.finished| ensures Sound(u, t.finished[k]) {
      SoundStays(t, u, t.finished[k]);
    }
    if r.stage == 6 {
      FinishIsSound(t);
    }
  }

  lemma FinishIsSound(t: Table)
    requires Inv(t) && t.reader.Reading? && t.reader.stage == 6
    ensures var r := t.reader;
            Sound(ReadStep(t), Finished(r.q, ReadOf(r, t.copies[r.copy].generation), t.flips != r.startFlips))
  {
    hide EntryIndex, Stored;
    var r := t.reader;
    var c := t.copies[r.copy];
    var f := Finished(r.q, ReadOf(r, c.generation), t.flips != r.startFlips);
    if !f.read.torn {
      assert c.data in t.published && WholeOf(f.read, c.data, r.q);
    }
  }

  lemma StepKeeps(t: Table, m: Move)
    requires Inv(t)
    ensures Inv(Step(t, m))
  {
    hide WriteStep, ReadStep, WholeOf, EntryIndex, Stored, Sound, Current;
    match m
    case WriterStep =>
      if t.writer.Writing? {
        WriterKeeps(t);
      }
    case ReaderStep =>
      if t.reader.Reading? {
        ReaderKeeps(t);
      }
    case StartPublish(_) =>
      SameFinished(t, Step(t, m));
    case StartLookup(_) =>
      SameFinished(t, Step(t, m));
  }

  lemma SameFinished(t: Table, u: Table)
    requires Inv(t) && u.finished == t.finished && u.published == t.published
    ensures forall k | 0 <= k < |u.finished| :: Sound(u, u.finished[k])
  {
    forall k | 0 <= k < |u.finished| ensures Sound(u, u.finished[k]) {
      SoundStays(t, u, t.finished[k]);
    }
  }

  function Run(t: Table, moves: seq<Move>): Table
    requires Shaped(t)
    decreases |moves|
  {
    if moves == [] then t else Run(Step(t, moves[0]), moves[1..])
  }

  lemma {:induction false} RunKeeps(t: Table, moves: seq<Move>)
    requires Inv(t)
    ensures Inv(Run(t, moves))
    decreases |moves|
  {
    hide Step, CopyInv, ReaderInv, Sound;
    if moves != [] {
      StepKeeps(t, moves[0]);
      RunKeeps(Step(t, moves[0]), moves[1..]);
    }
  }

  const BLANK := Image(0, 0, NO_SHORT_ADDRESS, 0, seq(ANSWER_ENTRIES, _ => 0))
  const NEW_TABLE := Table([Copy(0, BLANK), Copy(0, BLANK)], 0, WIdle, RIdle, 0, {}, [])

  lemma NewTableInv()
    ensures Inv(NEW_TABLE)
  {
  }

  /**
   Under any interleaving, an answer comes from one single publish: one that accounts for exactly
   the capture before the query, is young enough, addresses this device, and says so in the half
   of its entry that the lease selects.
   */
  lemma AnswersComeFromOnePublish(moves: seq<Move>, k: nat, previous: nat, now: nat, leaseAlive: bool)
    requires k < |Run(NEW_TABLE, moves).finished|
    ensures var t := Run(NEW_TABLE, moves);
            var f := t.finished[k];
            var decided := Decide(Some(f.read), f.q, previous, now, leaseAlive);
            && (decided.Torn? ==> f.overtaken)
            && (decided.Answer? ==>
                  exists i: Image :: i in t.published && ImageOk(i) && Says(i, f.q, previous, now, leaseAlive) == Some(decided.value))
  {
    hide EntryAnswer, EntryIndex, Says, Run;
    NewTableInv();
    RunKeeps(NEW_TABLE, moves);
    var t := Run(NEW_TABLE, moves);
    var f := t.finished[k];
    assert Sound(t, f);
    var decided := Decide(Some(f.read), f.q, previous, now, leaseAlive);
    if decided.Answer? {
      var i: Image :| i in t.published && ImageOk(i) && WholeOf(f.read, i, f.q);
      WholeReadAnswers(f.read, i, f.q, previous, now, leaseAlive, decided.value);
    }
  }
}
