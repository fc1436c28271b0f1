/** What a batch plan turns into for the model (src/einf/executors/torch/input.py,
    flashinfer_attn.py:20-70 and decode_graph.py:41-44, 193-253): built fresh, in reused buffers, or
    packed into a decode bucket. */
module ModelInputs {
  import opened Base
  import opened Policies
  import opened Schedules
  import opened Transparency

  // ------------------------------------------------------------------- fresh

  datatype ModelInput = ModelInput(
    tokens: seq<int>, position: seq<int>, slots: seq<int>, queryStarts: seq<int>,
    contextLens: seq<int>, blockTables: seq<seq<int>>)

  function ContextLen(r: ScheduledRequest): nat { r.start + |r.input| }

  function Positions(r: ScheduledRequest): seq<int> { seq(|r.input|, i => r.start + i) }

  function Slots(r: ScheduledRequest, bl: Positive): seq<int> {
    seq(|r.input|, i requires 0 <= i => SlotOf(r.blockTable, r.start + i, bl))
  }

  function AllTokens(rs: seq<ScheduledRequest>): seq<int> {
    if rs == [] then [] else AllTokens(rs[..|rs| - 1]) + rs[|rs| - 1].input
  }

  function AllPositions(rs: seq<ScheduledRequest>): (s: seq<int>)
    ensures |s| == |AllTokens(rs)|
  {
    if rs == [] then [] else AllPositions(rs[..|rs| - 1]) + Positions(rs[|rs| - 1])
  }

  function AllSlots(rs: seq<ScheduledRequest>, bl: Positive): (s: seq<int>)
    ensures |s| == |AllTokens(rs)|
  {
    if rs == [] then [] else AllSlots(rs[..|rs| - 1], bl) + Slots(rs[|rs| - 1], bl)
  }

  /** Prefix sums of the query lengths, from 0. */
  function QueryStarts(rs: seq<ScheduledRequest>): (s: seq<int>)
    ensures |s| == |rs| + 1
  {
    if rs == [] then [0] else QueryStarts(rs[..|rs| - 1]) + [|AllTokens(rs)|]
  }

  function ContextLens(rs: seq<ScheduledRequest>): (s: seq<int>)
    ensures |s| == |rs|
  {
    seq(|rs|, i requires 0 <= i < |rs| => ContextLen(rs[i]))
  }

  function Wider(a: nat, b: nat): nat { if a < b then b else a }

  /** The width of the padded tables. */
  function Width(rs: seq<ScheduledRequest>): (w: nat)
    ensures forall i :: 0 <= i < |rs| ==> |rs[i].blockTable| <= w
    ensures rs != [] ==> exists i :: 0 <= i < |rs| && |rs[i].blockTable| == w
  {
    if rs == [] then 0 else Wider(Width(rs[..|rs| - 1]), |rs[|rs| - 1].blockTable|)
  }

  function Entry(table: seq<BlockId>, c: nat): int { if c < |table| then table[c] else -1 }

  function PaddedTable(table: seq<BlockId>, w: nat): (s: seq<int>)
    ensures |s| == w
  {
    seq(w, c requires 0 <= c => Entry(table, c))
  }

  function PaddedTables(rs: seq<ScheduledRequest>, w: nat): (s: seq<seq<int>>)
    ensures |s| == |rs|
  {
    seq(|rs|, i requires 0 <= i < |rs| => PaddedTable(rs[i].blockTable, w))
  }

  /** The input that a plan determines. */
  function InputOf(rs: seq<ScheduledRequest>, bl: Positive): ModelInput {
    ModelInput(AllTokens(rs), AllPositions(rs), AllSlots(rs, bl), QueryStarts(rs), ContextLens(rs), PaddedTables(rs, Width(rs)))
  }

  lemma TakeOneMore<T>(s: seq<T>, i: nat)
    requires i < |s|
    ensures s[..i + 1][..i] == s[..i] && s[..i + 1][i] == s[i] && |s[..i + 1]| == i + 1
  {
  }

  /** Every token has an entry in its request's table. */
  predicate InTable(r: ScheduledRequest, bl: Positive) {
    forall i :: 0 <= i < |r.input| ==> TokenInTable(r, i, bl)
  }

  predicate TokenInTable(r: ScheduledRequest, i: nat, bl: Positive) { EntryOf(r.start + i, bl) < |r.blockTable| }

  function EntryOf(p: nat, bl: Positive): nat { p / bl }

  function OffsetOf(p: nat, bl: Positive): nat { p % bl }

  predicate AllInTable(rs: seq<ScheduledRequest>, bl: Positive) {
    forall i :: 0 <= i < |rs| ==> InTable(rs[i], bl)
  }

  /** What an input says of request `i`: where its query starts, each of its tokens there with its
      position in the context and the slot of that position, its context length and its padded table. */
  ghost predicate DescribesOne(input: ModelInput, r: ScheduledRequest, i: nat, bl: Positive) {
    && i + 1 < |input.queryStarts| && i < |input.contextLens| && i < |input.blockTables|
    && 0 <= input.queryStarts[i] && input.queryStarts[i + 1] == input.queryStarts[i] + |r.input|
    && input.queryStarts[i + 1] <= |input.tokens| == |input.position| == |input.slots|
    && input.contextLens[i] == r.start + |r.input|
    && |r.blockTable| <= |input.blockTables[i]|
    && (forall c :: 0 <= c < |input.blockTables[i]| ==>
          input.blockTables[i][c] == if c < |r.blockTable| then r.blockTable[c] else -1)
    && forall k: nat :: k < |r.input| ==> DescribesToken(input, r, i, k, bl)
  }

  ghost predicate DescribesToken(input: ModelInput, r: ScheduledRequest, i: nat, k: nat, bl: Positive)
    requires k < |r.input| && i < |input.queryStarts|
  {
    var at := input.queryStarts[i] + k;
    && 0 <= at < |input.tokens| && at < |input.position| && at < |input.slots|
    && input.tokens[at] == r.input[k] && input.position[at] == r.start + k
    && (r.start + k) / bl < |r.blockTable|
    && input.slots[at] == r.blockTable[(r.start + k) / bl] * bl + (r.start + k) % bl
  }

  ghost predicate Describes(input: ModelInput, rs: seq<ScheduledRequest>, bl: Positive) {
    && |input.queryStarts| == |rs| + 1 && |input.contextLens| == |input.blockTables| == |rs|
    && input.queryStarts[0] == 0 && input.queryStarts[|rs|] == |input.tokens|
    && forall i :: 0 <= i < |rs| ==> DescribesOne(input, rs[i], i, bl)
  }

  lemma {:induction false} StartAt(rs: seq<ScheduledRequest>, i: nat)
    requires i <= |rs|
    ensures QueryStarts(rs)[i] == |AllTokens(rs[..i])|
  {
    if i == |rs| {
      assert rs[..i] == rs;
    } else {
      StartAt(rs[..|rs| - 1], i);
      assert rs[..|rs| - 1][..i] == rs[..i];
    }
  }

  lemma {:induction false} TokenAt(rs: seq<ScheduledRequest>, i: nat, k: nat, bl: Positive)
    requires i < |rs| && k < |rs[i].input|
    ensures |AllTokens(rs[..i])| + |rs[i].input| <= |AllTokens(rs)|
    ensures var at := |AllTokens(rs[..i])| + k;
            && AllTokens(rs)[at] == rs[i].input[k] && AllPositions(rs)[at] == rs[i].start + k
            && AllSlots(rs, bl)[at] == SlotOf(rs[i].blockTable, rs[i].start + k, bl)
  {
    hide SlotOf;
    var front := rs[..|rs| - 1];
    if i < |front| {
      TokenAt(front, i, k, bl);
      assert front[..i] == rs[..i];
    }
  }

  lemma SlotIs(table: seq<BlockId>, p: nat, bl: Positive)
    requires p / bl < |table|
    ensures SlotOf(table, p, bl) == table[p / bl] * bl + p % bl
  {
  }

  /** The input that a plan determines, however wide its tables, says where everything is. */
  lemma InputDescribes(rs: seq<ScheduledRequest>, bl: Positive, width: nat)
    requires AllInTable(rs, bl) && forall i :: 0 <= i < |rs| ==> |rs[i].blockTable| <= width
    ensures Describes(ModelInput(AllTokens(rs), AllPositions(rs), AllSlots(rs, bl), QueryStarts(rs), ContextLens(rs),
                                 PaddedTables(rs, width)), rs, bl)
  {
    hide AllTokens, AllPositions, AllSlots, QueryStarts, SlotOf, DescribesToken;
    var input := ModelInput(AllTokens(rs), AllPositions(rs), AllSlots(rs, bl), QueryStarts(rs), ContextLens(rs), PaddedTables(rs, width));
    StartAt(rs, 0);
    StartAt(rs, |rs|);
    assert rs[..0] == [] && rs[..|rs|] == rs;
    assert AllTokens([]) == [] by { NoTokens(); }
    forall i | 0 <= i < |rs| ensures DescribesOne(input, rs[i], i, bl) {
      StartAt(rs, i);
      StartAt(rs, i + 1);
      NextTokens(rs, i);
      forall k: nat | k < |rs[i].input| ensures DescribesToken(input, rs[i], i, k, bl) {
        TokenDescribed(rs, bl, input, i, k);
      }
    }
  }

  lemma NoTokens()
    ensures AllTokens([]) == []
  {
  }

  lemma {:induction false} NextTokens(rs: seq<ScheduledRequest>, i: nat)
    requires i < |rs|
    ensures |AllTokens(rs[..i + 1])| == |AllTokens(rs[..i])| + |rs[i].input| <= |AllTokens(rs)|
  {
    assert rs[..i + 1][..i] == rs[..i];
    MoreTokens(rs, i + 1);
  }

  lemma {:induction false} MoreTokens(rs: seq<ScheduledRequest>, i: nat)
    requires i <= |rs|
    ensures |AllTokens(rs[..i])| <= |AllTokens(rs)|
  {
    if i == |rs| {
      assert rs[..i] == rs;
    } else {
      MoreTokens(rs[..|rs| - 1], i);
      assert rs[..|rs| - 1][..i] == rs[..i];
    }
  }

  lemma TokenDescribed(rs: seq<ScheduledRequest>, bl: Positive, input: ModelInput, i: nat, k: nat)
    requires AllInTable(rs, bl) && i < |rs| && k < |rs[i].input|
    requires input.tokens == AllTokens(rs) && input.position == AllPositions(rs) && input.slots == AllSlots(rs, bl)
    requires i < |input.queryStarts| && input.queryStarts[i] == |AllTokens(rs[..i])|
    ensures DescribesToken(input, rs[i], i, k, bl)
  {
    hide AllTokens, AllPositions, AllSlots, SlotOf;
    TokenAt(rs, i, k, bl);
    assert TokenInTable(rs[i], k, bl);
    SlotIs(rs[i].blockTable, rs[i].start + k, bl);
  }

  lemma InputOfDescribes(rs: seq<ScheduledRequest>, bl: Positive)
    requires AllInTable(rs, bl)
    ensures Describes(InputOf(rs, bl), rs, bl)
  {
    hide AllTokens, AllPositions, AllSlots, QueryStarts, Describes, InTable;
    InputDescribes(rs, bl, Width(rs));
  }

  /** `from_plan`, by appending.  A position beyond its table raises. */
  method FromPlan(rs: seq<ScheduledRequest>, bl: Positive) returns (input: Option<ModelInput>)
    ensures input == if AllInTable(rs, bl) then Some(InputOf(rs, bl)) else None
    ensures input.Some? ==> Describes(input.value, rs, bl)
  {
    hide InTable, SlotOf, Describes;
    var tokens, position, slots, starts, contexts, width := [], [], [], [0], [], 0;
    for i := 0 to |rs|
      invariant AllInTable(rs[..i], bl)
      invariant tokens == AllTokens(rs[..i]) && position == AllPositions(rs[..i]) && slots == AllSlots(rs[..i], bl)
      invariant starts == QueryStarts(rs[..i]) && starts[i] == |tokens|
      invariant contexts == ContextLens(rs[..i]) && width == Width(rs[..i])
    {
      TakeOneMore(rs, i);
      var r := rs[i];
      tokens, position := tokens + r.input, position + Positions(r);
      var more := SlotsOf(r, bl);
      if more.None? {
        return None;
      }
      slots := slots + more.value;
      starts := starts + [starts[i] + |r.input|];
      contexts := contexts + [r.start + |r.input|];
      width := Wider(width, |r.blockTable|);
    }
    assert rs[..|rs|] == rs;
    input := Some(ModelInput(tokens, position, slots, starts, contexts, PaddedTables(rs, width)));
    InputOfDescribes(rs, bl);
  }

  /** The slots of a request, one lookup after the other. */
  method SlotsOf(r: ScheduledRequest, bl: Positive) returns (slots: Option<seq<int>>)
    ensures slots == if InTable(r, bl) then Some(Slots(r, bl)) else None
  {
    hide EntryOf, OffsetOf, SlotOf, BlockSlot;
    var found: seq<int> := [];
    for i := 0 to |r.input|
      invariant found == Slots(r, bl)[..i] && forall k :: 0 <= k < i ==> TokenInTable(r, k, bl)
    {
      var entry := EntryOf(r.start + i, bl);
      assert TokenInTable(r, i, bl) <==> entry < |r.blockTable|;
      if entry >= |r.blockTable| {
        return None;
      }
      SlotLookup(r.blockTable, r.start + i, bl);
      found := found + [BlockSlot(r.blockTable[entry], OffsetOf(r.start + i, bl), bl)];
    }
    assert Slots(r, bl)[..|r.input|] == Slots(r, bl);
    return Some(found);
  }

  lemma SlotLookup(table: seq<BlockId>, p: nat, bl: Positive)
    requires EntryOf(p, bl) < |table|
    ensures SlotOf(table, p, bl) == BlockSlot(table[EntryOf(p, bl)], OffsetOf(p, bl), bl)
  {
    hide BlockSlot;
  }

  // --------------------------------------------------------------------- pages

  /** Paged KV in compressed rows: page counts summed, the pages, and how full the last one is. */
  datatype Csr = Csr(indptr: seq<int>, indices: seq<int>, lastPageLen: seq<int>)

  function Pages(contextLen: nat, bl: Positive): nat { CeilDiv(contextLen, bl) }

  function LastPageLen(contextLen: nat, bl: Positive): nat {
    if contextLen % bl == 0 then bl else contextLen % bl
  }

  /** A table and the context it serves. */
  datatype Paged = Paged(table: seq<int>, contextLen: nat)

  function PageCount(ps: seq<Paged>, bl: Positive): nat {
    if ps == [] then 0 else PageCount(ps[..|ps| - 1], bl) + Pages(ps[|ps| - 1].contextLen, bl)
  }

  predicate RowsLongEnough(ps: seq<Paged>, bl: Positive) {
    forall i :: 0 <= i < |ps| ==> Pages(ps[i].contextLen, bl) <= |ps[i].table|
  }

  /** `build_paged_kv_csr`, for tables long enough. */
  function CsrOf(ps: seq<Paged>, bl: Positive): (c: Csr)
    requires RowsLongEnough(ps, bl)
    ensures |c.indptr| == |ps| + 1 && c.indptr[|ps|] == |c.indices| == PageCount(ps, bl) && |c.lastPageLen| == |ps|
  {
    if ps == [] then Csr([0], [], [])
    else
      var front, last := CsrOf(ps[..|ps| - 1], bl), ps[|ps| - 1];
      Csr(front.indptr + [|front.indices| + Pages(last.contextLen, bl)],
          front.indices + last.table[..Pages(last.contextLen, bl)],
          front.lastPageLen + [LastPageLen(last.contextLen, bl)])
  }

  function PagedOf(r: ScheduledRequest): Paged { Paged(r.blockTable, ContextLen(r)) }

  function PagedRows(rs: seq<ScheduledRequest>): (s: seq<Paged>)
    ensures |s| == |rs|
  {
    seq(|rs|, i requires 0 <= i < |rs| => PagedOf(rs[i]))
  }

  /** The rows of a padded input, as `build_paged_kv_csr` gets them. */
  function InputRows(input: ModelInput): (s: seq<Paged>)
    requires |input.blockTables| == |input.contextLens|
    requires forall i :: 0 <= i < |input.contextLens| ==> input.contextLens[i] >= 0
    ensures |s| == |input.contextLens|
  {
    seq(|input.contextLens|, i requires 0 <= i < |input.contextLens| => Paged(input.blockTables[i], input.contextLens[i]))
  }

  /** What `build_paged_kv_csr` accepts: contexts of at least 1, pages within the padded width, and
      no negative entry among the pages. */
  predicate CsrAccepts(ps: seq<Paged>, width: nat, bl: Positive)
    requires forall i :: 0 <= i < |ps| ==> |ps[i].table| == width
  {
    && (forall i :: 0 <= i < |ps| ==> ps[i].contextLen >= 1 && Pages(ps[i].contextLen, bl) <= width)
    && (forall i, c :: 0 <= i < |ps| && 0 <= c < Pages(ps[i].contextLen, bl) ==> ps[i].table[c] >= 0)
  }

  /** What `build` accepts of a plan that is not empty. */
  predicate RequestOk(r: ScheduledRequest, bl: Positive) {
    ContextLen(r) >= 1 && Pages(ContextLen(r), bl) <= |r.blockTable|
  }

  predicate Buildable(rs: seq<ScheduledRequest>, bl: Positive) {
    forall i :: 0 <= i < |rs| ==> RequestOk(rs[i], bl)
  }

  /** A request with enough pages has an entry for every token. */
  lemma EnoughPages(r: ScheduledRequest, bl: Positive)
    requires RequestOk(r, bl)
    ensures InTable(r, bl)
  {
    forall i | 0 <= i < |r.input| ensures TokenInTable(r, i, bl) {
      CeilDivBounds(ContextLen(r), bl);
      SpanOfQuotient(r.start + i, bl);
      if Pages(ContextLen(r), bl) <= EntryOf(r.start + i, bl) {
        SpanMono(Pages(ContextLen(r), bl), EntryOf(r.start + i, bl), bl);
      }
    }
  }

  /** A plan is refused before its buffers are filled exactly when building it afresh or then laying
      out its pages would refuse it, although they look at different things. */
  lemma SameRefusals(rs: seq<ScheduledRequest>, bl: Positive)
    ensures Buildable(rs, bl) <==> AllInTable(rs, bl) && CsrAccepts(InputRows(InputOf(rs, bl)), Width(rs), bl)
  {
    hide InTable, Pages, AllTokens, AllPositions, AllSlots, QueryStarts, Width, SlotOf;
    var ps := InputRows(InputOf(rs, bl));
    if Buildable(rs, bl) {
      forall i | 0 <= i < |rs| ensures InTable(rs[i], bl) { EnoughPages(rs[i], bl); }
    }
    forall i | 0 <= i < |rs|
      ensures ps[i] == Paged(PaddedTable(rs[i].blockTable, Width(rs)), ContextLen(rs[i]))
    {
    }
    if CsrAccepts(ps, Width(rs), bl) {
      forall i | 0 <= i < |rs| ensures RequestOk(rs[i], bl) {
        var n := |rs[i].blockTable|;
        assert n < Width(rs) ==> ps[i].table[n] == -1;
      }
    }
  }

  /** Padding the tables does not show in the pages. */
  lemma {:induction false} PaddingInvisible(ps: seq<Paged>, qs: seq<Paged>, bl: Positive)
    requires |ps| == |qs|
    requires RowsLongEnough(ps, bl)
    requires forall i :: 0 <= i < |ps| ==> ps[i].contextLen == qs[i].contextLen && ps[i].table <= qs[i].table
    ensures RowsLongEnough(qs, bl) && CsrOf(ps, bl) == CsrOf(qs, bl)
  {
    hide Pages, LastPageLen;
    if ps != [] { PaddingInvisible(ps[..|ps| - 1], qs[..|qs| - 1], bl); }
  }

  /** The pages of the padded input are the pages of the tables. */
  lemma PagesOfInput(rs: seq<ScheduledRequest>, bl: Positive)
    requires Buildable(rs, bl)
    ensures var ps := InputRows(InputOf(rs, bl));
            RowsLongEnough(PagedRows(rs), bl) && RowsLongEnough(ps, bl) && CsrOf(PagedRows(rs), bl) == CsrOf(ps, bl)
  {
    hide Pages, AllTokens, AllPositions, AllSlots, QueryStarts, Width, SlotOf, CsrOf;
    PaddingInvisible(PagedRows(rs), InputRows(InputOf(rs, bl)), bl);
  }

  /** One more request, everywhere. */
  lemma AppendRequest(done: seq<ScheduledRequest>, r: ScheduledRequest, bl: Positive)
    ensures AllTokens(done + [r]) == AllTokens(done) + r.input
    ensures AllPositions(done + [r]) == AllPositions(done) + Positions(r)
    ensures AllSlots(done + [r], bl) == AllSlots(done, bl) + Slots(r, bl)
    ensures QueryStarts(done + [r]) == QueryStarts(done) + [|AllTokens(done)| + |r.input|]
    ensures ContextLens(done + [r]) == ContextLens(done) + [ContextLen(r)]
    ensures PagedRows(done + [r]) == PagedRows(done) + [PagedOf(r)]
  {
    hide ContextLen, Slots, Positions;
    assert (done + [r])[..|done|] == done;
  }

  lemma AppendPages(ps: seq<Paged>, p: Paged, bl: Positive)
    requires RowsLongEnough(ps, bl) && Pages(p.contextLen, bl) <= |p.table|
    ensures RowsLongEnough(ps + [p], bl)
    ensures var c, d := CsrOf(ps, bl), CsrOf(ps + [p], bl);
            && d.indptr == c.indptr + [|c.indices| + Pages(p.contextLen, bl)]
            && d.indices == c.indices + p.table[..Pages(p.contextLen, bl)]
            && d.lastPageLen == c.lastPageLen + [LastPageLen(p.contextLen, bl)]
    ensures PageCount(ps + [p], bl) == PageCount(ps, bl) + Pages(p.contextLen, bl)
  {
    hide Pages, LastPageLen;
    var all := ps + [p];
    assert all[..|all| - 1] == ps && all[|all| - 1] == p;
  }

  /** What a page layout says of request `i`: its pages, as many as its context needs, from where its
      row starts, and how full the last of them is. */
  ghost predicate PagesOne(csr: Csr, r: ScheduledRequest, i: nat, bl: Positive) {
    && i + 1 < |csr.indptr| && i < |csr.lastPageLen| && 0 <= csr.indptr[i] <= csr.indptr[i + 1] <= |csr.indices|
    && (forall p: nat :: p < r.start + |r.input| ==> PageOfPosition(csr, r, i, p, bl))
    && 1 <= csr.lastPageLen[i] <= bl
    && bl * (csr.indptr[i + 1] - csr.indptr[i] - 1) + csr.lastPageLen[i] == r.start + |r.input|
  }

  ghost predicate PageOfPosition(csr: Csr, r: ScheduledRequest, i: nat, p: nat, bl: Positive)
    requires i + 1 < |csr.indptr|
  {
    && 0 <= csr.indptr[i] && csr.indptr[i] + p / bl < csr.indptr[i + 1] <= |csr.indices| && p / bl < |r.blockTable|
    && csr.indices[csr.indptr[i] + p / bl] == r.blockTable[p / bl]
  }

  ghost predicate PagesDescribe(csr: Csr, rs: seq<ScheduledRequest>, bl: Positive) {
    && |csr.indptr| == |rs| + 1 && |csr.lastPageLen| == |rs|
    && csr.indptr[0] == 0 && csr.indptr[|rs|] == |csr.indices|
    && forall i :: 0 <= i < |rs| ==> PagesOne(csr, rs[i], i, bl)
  }

  /** Where a position is written is where the page layout looks for it. */
  lemma SlotIsInPages(input: ModelInput, csr: Csr, rs: seq<ScheduledRequest>, bl: Positive, i: nat, k: nat)
    requires Describes(input, rs, bl) && PagesDescribe(csr, rs, bl) && i < |rs| && k < |rs[i].input|
    ensures var p := rs[i].start + k;
            && i < |csr.indptr| && i < |input.queryStarts|
            && 0 <= csr.indptr[i] + p / bl < |csr.indices| && 0 <= input.queryStarts[i] + k < |input.slots|
            && input.slots[input.queryStarts[i] + k] == csr.indices[csr.indptr[i] + p / bl] * bl + p % bl
  {
    assert DescribesOne(input, rs[i], i, bl) && PagesOne(csr, rs[i], i, bl);
    assert DescribesToken(input, rs[i], i, k, bl);
    assert PageOfPosition(csr, rs[i], i, rs[i].start + k, bl);
  }

  lemma {:induction false} PagesAt(ps: seq<Paged>, i: nat, bl: Positive)
    requires RowsLongEnough(ps, bl) && i < |ps|
    ensures RowsLongEnough(ps[..i], bl)
    ensures var c, n := CsrOf(ps, bl), PageCount(ps[..i], bl);
            && c.indptr[i] == n && c.indptr[i + 1] == n + Pages(ps[i].contextLen, bl) <= |c.indices|
            && c.indices[n..n + Pages(ps[i].contextLen, bl)] == ps[i].table[..Pages(ps[i].contextLen, bl)]
            && c.lastPageLen[i] == LastPageLen(ps[i].contextLen, bl)
  {
    hide Pages, LastPageLen;
    var front := ps[..|ps| - 1];
    if i < |front| {
      PagesAt(front, i, bl);
      assert front[..i] == ps[..i];
    } else {
      assert ps[..i] == front;
    }
  }

  lemma FirstRowStart(ps: seq<Paged>, bl: Positive)
    requires RowsLongEnough(ps, bl)
    ensures CsrOf(ps, bl).indptr[0] == 0
  {
    hide Pages;
    if ps != [] {
      PagesAt(ps, 0, bl);
      assert ps[..0] == [];
    }
  }

  lemma LastPageFills(n: nat, bl: Positive)
    requires n > 0
    ensures Pages(n, bl) > 0 && 1 <= LastPageLen(n, bl) <= bl && bl * (Pages(n, bl) - 1) + LastPageLen(n, bl) == n
  {
    var q, m := n / bl, n % bl;
    assert n == q * bl + m;
    SpanIsProduct(q, bl);
    if m == 0 {
      QuotientIs(n + bl - 1, bl, q);
      assert bl * (q - 1) + bl == q * bl;
    } else {
      QuotientIs(n + bl - 1, bl, q + 1);
      assert bl * q == q * bl;
    }
  }

  /** The pages laid out for a plan that can be built say where everything is. */
  lemma CsrDescribes(rs: seq<ScheduledRequest>, bl: Positive)
    requires Buildable(rs, bl)
    ensures RowsLongEnough(PagedRows(rs), bl) && PagesDescribe(CsrOf(PagedRows(rs), bl), rs, bl)
  {
    hide Pages, CsrOf, LastPageLen;
    var ps, csr := PagedRows(rs), CsrOf(PagedRows(rs), bl);
    FirstRowStart(ps, bl);
    forall i | 0 <= i < |rs| ensures PagesOne(csr, rs[i], i, bl) {
      PagesAt(ps, i, bl);
      PagesOneIs(csr, rs[i], i, bl);
    }
  }

  lemma PagesOneIs(csr: Csr, r: ScheduledRequest, i: nat, bl: Positive)
    requires i + 1 < |csr.indptr| && i < |csr.lastPageLen| && RequestOk(r, bl) && 0 <= csr.indptr[i]
    requires csr.indptr[i + 1] == csr.indptr[i] + Pages(ContextLen(r), bl) <= |csr.indices|
    requires csr.indices[csr.indptr[i]..csr.indptr[i] + Pages(ContextLen(r), bl)] == r.blockTable[..Pages(ContextLen(r), bl)]
    requires csr.lastPageLen[i] == LastPageLen(ContextLen(r), bl)
    ensures PagesOne(csr, r, i, bl)
  {
    hide Pages, LastPageLen;
    var n, from := Pages(ContextLen(r), bl), csr.indptr[i];
    LastPageFills(ContextLen(r), bl);
    forall p: nat | p < ContextLen(r) ensures PageOfPosition(csr, r, i, p, bl) {
      PageIndex(p, ContextLen(r), bl);
      EntryAt(csr.indices, from, n, r.blockTable, p / bl);
    }
  }

  lemma EntryAt(indices: seq<int>, from: nat, n: nat, table: seq<BlockId>, e: nat)
    requires from + n <= |indices| && n <= |table| && indices[from..from + n] == table[..n] && e < n
    ensures indices[from + e] == table[e]
  {
    assert indices[from..from + n][e] == table[..n][e];
  }

  lemma PageIndex(p: nat, n: nat, bl: Positive)
    requires p < n
    ensures p / bl < Pages(n, bl)
  {
    CeilDivBounds(n, bl);
    SpanOfQuotient(p, bl);
    if Pages(n, bl) <= p / bl { SpanMono(Pages(n, bl), p / bl, bl); }
  }

  // ------------------------------------------------------------------- staging

  /** Host buffers that are written over and over. */
  class Staging {
    const batchCap: nat
    const pagesCap: nat
    const tokensCap: nat
    const nnzCap: nat
    const tokens: array<int>
    const position: array<int>
    const slots: array<int>
    const starts: array<int>
    const context: array<int>
    const pages: array2<int>
    const indptr: array<int>
    const indices: array<int>
    const lastPage: array<int>

    /** Sizes agree with the capacities and no two buffers are the same. */
    predicate Valid() {
      && tokens.Length == position.Length == slots.Length == tokensCap
      && starts.Length == indptr.Length == batchCap + 1
      && context.Length == lastPage.Length == batchCap
      && pages.Length0 == batchCap && pages.Length1 == pagesCap
      && indices.Length == nnzCap
      && tokens != position && tokens != slots && position != slots
      && context != indptr && context != lastPage && context != indices
      && indptr != lastPage && indptr != indices && lastPage != indices
      && ApartFrom(tokens) && ApartFrom(position) && ApartFrom(slots)
    }

    predicate ApartFrom(a: array<int>) {
      && a != starts && a != context && a != indptr && a != indices && a != lastPage
      && starts != context && starts != indptr && starts != indices && starts != lastPage
    }

    ghost function Buffers(): set<object> {
      {tokens, position, slots, starts, context, pages, indptr, indices, lastPage}
    }

    /** Buffers with anything in them. */
    constructor (batchCap: nat, pagesCap: nat, tokensCap: nat, nnzCap: nat)
      ensures Valid() && fresh(this) && fresh(Buffers())
      ensures this.batchCap == batchCap && this.pagesCap == pagesCap && this.tokensCap == tokensCap && this.nnzCap == nnzCap
    {
      this.batchCap, this.pagesCap, this.tokensCap, this.nnzCap := batchCap, pagesCap, tokensCap, nnzCap;
      tokens, position, slots := new int[tokensCap], new int[tokensCap], new int[tokensCap];
      starts, context, indptr := new int[batchCap + 1], new int[batchCap], new int[batchCap + 1];
      pages := new int[batchCap, pagesCap];
      lastPage, indices := new int[batchCap], new int[nnzCap];
    }

    /** The token buffers begin with the tokens, positions and slots of these requests. */
    ghost predicate HoldsTokens(done: seq<ScheduledRequest>, bl: Positive)
      reads tokens, position, slots
    {
      var n := |AllTokens(done)|;
      && n <= tokens.Length && n <= position.Length && n <= slots.Length
      && tokens[..n] == AllTokens(done) && position[..n] == AllPositions(done) && slots[..n] == AllSlots(done, bl)
    }

    ghost predicate HoldsStarts(done: seq<ScheduledRequest>)
      reads starts
    {
      |done| + 1 <= starts.Length && starts[..|done| + 1] == QueryStarts(done)
    }

    /** The page buffers begin with the contexts and pages of these requests. */
    ghost predicate HoldsPages(done: seq<ScheduledRequest>, bl: Positive)
      reads context, indptr, indices, lastPage
    {
      && |done| <= context.Length && |done| <= lastPage.Length && |done| + 1 <= indptr.Length
      && RowsLongEnough(PagedRows(done), bl) && PageCount(PagedRows(done), bl) <= indices.Length
      && context[..|done|] == ContextLens(done)
      && var csr := CsrOf(PagedRows(done), bl);
         && indptr[..|done| + 1] == csr.indptr && indices[..|csr.indices|] == csr.indices
         && lastPage[..|done|] == csr.lastPageLen
    }

    /** The token-wise part of a request. */
    method PutTokens(ghost done: seq<ScheduledRequest>, r: ScheduledRequest, offset: nat, bl: Positive)
      requires Valid() && HoldsTokens(done, bl) && offset == |AllTokens(done)| && offset + |r.input| <= tokensCap
      modifies tokens, position, slots
      ensures HoldsTokens(done + [r], bl)
    {
      hide SlotOf, AllTokens, AllPositions, AllSlots;
      AppendRequest(done, r, bl);
      for i := 0 to |r.input|
        invariant tokens[..offset + i] == AllTokens(done) + r.input[..i]
        invariant position[..offset + i] == AllPositions(done) + Positions(r)[..i]
        invariant slots[..offset + i] == AllSlots(done, bl) + Slots(r, bl)[..i]
      {
        tokens[offset + i] := r.input[i];
        position[offset + i] := r.start + i;
        slots[offset + i] := SlotOf(r.blockTable, r.start + i, bl);
        assert tokens[..offset + i + 1] == tokens[..offset + i] + [r.input[i]];
        assert position[..offset + i + 1] == position[..offset + i] + [Positions(r)[i]];
        assert slots[..offset + i + 1] == slots[..offset + i] + [Slots(r, bl)[i]];
      }
    }

    method PutIndices(nnz: nat, table: seq<BlockId>, count: nat)
      requires count <= |table| && nnz + count <= indices.Length
      modifies indices
      ensures indices[..nnz + count] == old(indices[..nnz]) + table[..count]
    {
      for i := 0 to count
        invariant indices[..nnz + i] == old(indices[..nnz]) + table[..i]
      {
        indices[nnz + i] := table[i];
        assert indices[..nnz + i + 1] == indices[..nnz + i] + [table[i]];
      }
    }

    /** The context length, the pages and how full the last of them is. */
    method PutPages(ghost done: seq<ScheduledRequest>, r: ScheduledRequest, index: nat, nnz: nat, bl: Positive)
      returns (newNnz: nat)
      requires Valid() && HoldsPages(done, bl) && index == |done| < batchCap
      requires nnz == PageCount(PagedRows(done), bl) && nnz + Pages(ContextLen(r), bl) <= nnzCap
      requires Pages(ContextLen(r), bl) <= |r.blockTable|
      modifies context, indptr, indices, lastPage
      ensures HoldsPages(done + [r], bl) && newNnz == PageCount(PagedRows(done + [r]), bl)
    {
      hide Pages, LastPageLen, ContextLen, PageCount, CsrOf, ContextLens;
      AppendRequest(done, r, bl);
      ghost var ps := PagedRows(done);
      AppendPages(ps, PagedOf(r), bl);
      ghost var csr := CsrOf(ps, bl);
      var contextLen := ContextLen(r);
      var pageCount := Pages(contextLen, bl);
      context[index] := contextLen;
      lastPage[index] := LastPageLen(contextLen, bl);
      PutIndices(nnz, r.blockTable, pageCount);
      newNnz := nnz + pageCount;
      indptr[index + 1] := newNnz;
      assert context[..index + 1] == context[..index] + [contextLen];
      assert lastPage[..index + 1] == lastPage[..index] + [lastPage[index]];
      assert indptr[..index + 2] == indptr[..index + 1] + [newNnz];
    }

    /** A row of the padded tables. */
    method PutTable(index: nat, table: seq<BlockId>, width: nat)
      requires Valid() && index < batchCap && |table| <= width <= pagesCap
      modifies pages
      ensures forall c :: 0 <= c < width ==> pages[index, c] == Entry(table, c)
      ensures forall q, c :: 0 <= q < batchCap && q != index && 0 <= c < pagesCap ==> pages[q, c] == old(pages[q, c])
    {
      for c := 0 to width
        invariant forall k :: 0 <= k < c ==> pages[index, k] == -1
        invariant forall q, k :: 0 <= q < batchCap && q != index && 0 <= k < pagesCap ==> pages[q, k] == old(pages[q, k])
      {
        pages[index, c] := -1;
      }
      for c := 0 to |table|
        invariant forall k :: 0 <= k < width ==> pages[index, k] == if k < c then table[k] else -1
        invariant forall q, k :: 0 <= q < batchCap && q != index && 0 <= k < pagesCap ==> pages[q, k] == old(pages[q, k])
      {
        pages[index, c] := table[c];
      }
    }

    ghost predicate HoldsTables(done: seq<ScheduledRequest>, width: nat)
      requires Valid() && |done| <= batchCap && width <= pagesCap
      reads pages
    {
      forall q, c :: 0 <= q < |done| && 0 <= c < width ==> pages[q, c] == Entry(done[q].blockTable, c)
    }

    function Row(i: nat, width: nat): (s: seq<int>)
      requires i < pages.Length0 && width <= pages.Length1
      reads pages
      ensures |s| == width
    {
      seq(width, c requires 0 <= c < width reads pages => pages[i, c])
    }

    /** The upper left corner of the tables. */
    function Tables(batch: nat, width: nat): (s: seq<seq<int>>)
      requires batch <= pages.Length0 && width <= pages.Length1
      reads pages
      ensures |s| == batch
    {
      seq(batch, i requires 0 <= i < batch reads pages => Row(i, width))
    }

    lemma TablesHeld(rs: seq<ScheduledRequest>, width: nat)
      requires Valid() && |rs| <= batchCap && width <= pagesCap && HoldsTables(rs, width)
      ensures Tables(|rs|, width) == PaddedTables(rs, width)
    {
      forall q | 0 <= q < |rs| ensures Row(q, width) == PaddedTable(rs[q].blockTable, width) {
      }
    }

    /** What the fronts of the buffers hold. */
    function Input(batch: nat, n: nat, width: nat): ModelInput
      requires Valid() && batch <= batchCap && n <= tokensCap && width <= pagesCap
      reads Buffers()
    {
      ModelInput(tokens[..n], position[..n], slots[..n], starts[..batch + 1], context[..batch], Tables(batch, width))
    }

    function Layout(batch: nat, nnz: nat): Csr
      requires Valid() && batch <= batchCap && nnz <= nnzCap
      reads Buffers()
    {
      Csr(indptr[..batch + 1], indices[..nnz], lastPage[..batch])
    }

    lemma FilledDescribes(rs: seq<ScheduledRequest>, bl: Positive, width: nat)
      requires Valid() && Buildable(rs, bl) && |rs| <= batchCap && width == Width(rs) <= pagesCap
      requires HoldsTokens(rs, bl) && HoldsStarts(rs) && HoldsPages(rs, bl) && HoldsTables(rs, width)
      ensures |AllTokens(rs)| <= tokensCap && Describes(Input(|rs|, |AllTokens(rs)|, width), rs, bl)
      ensures PageCount(PagedRows(rs), bl) <= nnzCap && PagesDescribe(Layout(|rs|, PageCount(PagedRows(rs), bl)), rs, bl)
    {
      hide RequestOk, Pages, AllTokens, AllPositions, AllSlots, QueryStarts, Width, PageCount, CsrOf, Describes, PagesDescribe, InTable;
      forall i | 0 <= i < |rs| ensures InTable(rs[i], bl) { EnoughPages(rs[i], bl); }
      InputDescribes(rs, bl, width);
      CsrDescribes(rs, bl);
      TablesHeld(rs, width);
    }

    /** The requests one after the other. */
    method Fill(rs: seq<ScheduledRequest>, bl: Positive, width: nat)
      requires Valid() && Buildable(rs, bl) && |rs| <= batchCap && width == Width(rs) <= pagesCap
      requires |AllTokens(rs)| <= tokensCap && PageCount(PagedRows(rs), bl) <= nnzCap
      modifies Buffers()
      ensures HoldsTokens(rs, bl) && HoldsStarts(rs) && HoldsPages(rs, bl) && HoldsTables(rs, width)
      ensures Describes(Input(|rs|, |AllTokens(rs)|, width), rs, bl)
      ensures PagesDescribe(Layout(|rs|, PageCount(PagedRows(rs), bl)), rs, bl)
    {
      hide Describes, PagesDescribe;
      hide RequestOk, Pages, AllTokens, AllPositions, AllSlots, QueryStarts, Width, PageCount, CsrOf, HoldsTokens, HoldsPages;
      starts[0], indptr[0] := 0, 0;
      var offset, nnz := 0, 0;
      HoldsNothing(bl);
      for i := 0 to |rs|
        invariant HoldsTokens(rs[..i], bl) && offset == |AllTokens(rs[..i])|
        invariant HoldsStarts(rs[..i]) && starts[i] == offset
        invariant HoldsPages(rs[..i], bl) && nnz == PageCount(PagedRows(rs[..i]), bl)
        invariant HoldsTables(rs[..i], width)
      {
        var r := rs[i];
        assert rs[..i + 1] == rs[..i] + [r];
        PrefixFits(rs, i, bl);
        PutTokens(rs[..i], r, offset, bl);
        AppendRequest(rs[..i], r, bl);
        starts[i + 1] := starts[i] + |r.input|;
        assert starts[..i + 2] == starts[..i + 1] + [starts[i] + |r.input|];
        offset := offset + |r.input|;
        nnz := PutPages(rs[..i], r, i, nnz, bl);
        PutTable(i, r.blockTable, width);
      }
      assert rs[..|rs|] == rs;
      FilledDescribes(rs, bl, width);
    }

    lemma HoldsNothing(bl: Positive)
      requires Valid() && starts[0] == 0 && indptr[0] == 0
      ensures HoldsTokens([], bl) && HoldsStarts([]) && HoldsPages([], bl)
      ensures AllTokens([]) == [] && PageCount(PagedRows([]), bl) == 0
    {
      assert starts[..1] == [0] && indptr[..1] == [0];
    }
  }

  /** What the requests before one need leaves room for it. */
  lemma {:induction false} PrefixFits(rs: seq<ScheduledRequest>, i: nat, bl: Positive)
    requires i < |rs| && Buildable(rs, bl)
    ensures |AllTokens(rs[..i])| + |rs[i].input| <= |AllTokens(rs)|
    ensures PageCount(PagedRows(rs[..i]), bl) + Pages(ContextLen(rs[i]), bl) <= PageCount(PagedRows(rs), bl)
    ensures Pages(ContextLen(rs[i]), bl) <= |rs[i].blockTable|
  {
    hide Pages, ContextLen;
    var front := rs[..|rs| - 1];
    assert rs == front + [rs[|rs| - 1]];
    AppendRequest(front, rs[|rs| - 1], bl);
    AppendCount(PagedRows(front), PagedOf(rs[|rs| - 1]), bl);
    if i < |front| {
      PrefixFits(front, i, bl);
      assert front[..i] == rs[..i];
    }
  }

  lemma AppendCount(ps: seq<Paged>, p: Paged, bl: Positive)
    ensures PageCount(ps + [p], bl) == PageCount(ps, bl) + Pages(p.contextLen, bl)
  {
    assert (ps + [p])[..|ps|] == ps;
  }

  // ---------------------------------------------------------------------- pool

  predicate DecodeOnly(rs: seq<ScheduledRequest>) {
    rs != [] && forall i :: 0 <= i < |rs| ==> |rs[i].input| == 1
  }

  datatype Built = Built(input: ModelInput, hostStarts: seq<int>, csr: Csr, decodeOnly: bool)

  /** Staging reused from call to call and replaced by a larger one on demand. */
  class ModelInputPool {
    var staging: Staging

    constructor ()
      ensures staging.Valid() && fresh(staging) && fresh(staging.Buffers())
    {
      staging := new Staging(0, 0, 0, 0);
    }

    /** `_ensure`. */
    method Ensure(batch: nat, pages: nat, tokens: nat, nnz: nat)
      requires staging.Valid()
      modifies this
      ensures staging.Valid() && (staging == old(staging) || (fresh(staging) && fresh(staging.Buffers())))
      ensures batch <= staging.batchCap && pages <= staging.pagesCap && tokens <= staging.tokensCap && nnz <= staging.nnzCap
    {
      if batch <= staging.batchCap && pages <= staging.pagesCap && tokens <= staging.tokensCap && nnz <= staging.nnzCap {
        return;
      }
      staging := new Staging(
        Wider(batch, Wider(2 * staging.batchCap, 8)), Wider(pages, Wider(2 * staging.pagesCap, 8)),
        Wider(tokens, Wider(2 * staging.tokensCap, 64)), Wider(nnz, Wider(2 * staging.nnzCap, 64)));
    }

    /** What a build needs, or nothing for a plan that is refused. */
    method Measure(rs: seq<ScheduledRequest>, bl: Positive) returns (ok: bool, tokens: nat, width: nat, nnz: nat)
      ensures ok <==> Buildable(rs, bl)
      ensures ok ==> tokens == |AllTokens(rs)| && width == Width(rs) && nnz == PageCount(PagedRows(rs), bl)
    {
      hide Pages, ContextLen, AllTokens, Width, PageCount;
      tokens, width, nnz := 0, 0, 0;
      NothingNeeded(bl);
      for i := 0 to |rs|
        invariant Buildable(rs[..i], bl)
        invariant tokens == |AllTokens(rs[..i])| && width == Width(rs[..i]) && nnz == PageCount(PagedRows(rs[..i]), bl)
      {
        var r := rs[i];
        var pageCount := Pages(ContextLen(r), bl);
        if ContextLen(r) < 1 || pageCount > |r.blockTable| {
          return false, 0, 0, 0;
        }
        assert rs[..i + 1] == rs[..i] + [r];
        AppendRequest(rs[..i], r, bl);
        AppendCount(PagedRows(rs[..i]), PagedOf(r), bl);
        AppendWidth(rs[..i], r);
        tokens, width, nnz := tokens + |r.input|, Wider(width, |r.blockTable|), nnz + pageCount;
      }
      assert rs[..|rs|] == rs;
      ok := true;
    }

    /** Whatever was built before, the input is that of a fresh build and its pages are those laid out
        from that fresh input. */
    method Build(rs: seq<ScheduledRequest>, bl: Positive) returns (result: Option<Built>)
      requires staging.Valid()
      modifies this, staging.Buffers()
      ensures staging.Valid() && (staging == old(staging) || (fresh(staging) && fresh(staging.Buffers())))
      ensures result.Some? <==> rs != [] && AllInTable(rs, bl) && CsrAccepts(InputRows(InputOf(rs, bl)), Width(rs), bl)
      ensures result.Some? ==>
                && RowsLongEnough(InputRows(InputOf(rs, bl)), bl)
                && result.value == Built(InputOf(rs, bl), QueryStarts(rs), CsrOf(InputRows(InputOf(rs, bl)), bl), DecodeOnly(rs))
      ensures result.Some? ==> Describes(result.value.input, rs, bl) && PagesDescribe(result.value.csr, rs, bl)
      ensures result.None? ==> unchanged(this) && unchanged(old(staging).Buffers())
    {
      hide Describes, PagesDescribe;
      hide Pages, ContextLen, AllTokens, AllPositions, AllSlots, QueryStarts, Width, PageCount, CsrOf;
      hide CsrAccepts, PaddedTables, Buildable, AllInTable;
      SameRefusals(rs, bl);
      if rs == [] {
        return None;
      }
      var ok, tokens, width, nnz := Measure(rs, bl);
      if !ok {
        return None;
      }
      Ensure(|rs|, width, tokens, nnz);
      staging.Fill(rs, bl, width);
      PagesOfInput(rs, bl);
      staging.TablesHeld(rs, width);
      var batch := |rs|;
      var input := ModelInput(
        staging.tokens[..tokens], staging.position[..tokens], staging.slots[..tokens], staging.starts[..batch + 1],
        staging.context[..batch], staging.Tables(batch, width));
      var csr := Csr(staging.indptr[..batch + 1], staging.indices[..nnz], staging.lastPage[..batch]);
      result := Some(Built(input, staging.starts[..batch + 1], csr, DecodeOnly(rs)));
    }
  }

  lemma NothingNeeded(bl: Positive)
    ensures AllTokens([]) == [] && Width([]) == 0 && PageCount(PagedRows([]), bl) == 0
  {
  }

  lemma AppendWidth(done: seq<ScheduledRequest>, r: ScheduledRequest)
    ensures Width(done + [r]) == Wider(Width(done), |r.blockTable|)
  {
    assert (done + [r])[..|done|] == done;
  }

  // ------------------------------------------------------------ decode buckets

  const DECODE_BUCKETS: seq<nat> := [1, 2, 3, 4, 5, 6, 7, 8, 10, 12, 14, 16, 20, 24, 28, 32, 40, 48, 56, 64]
  const MAX_DECODE_BATCH: nat := 64

  /** `bisect_left`: the first place in an ascending list, from `i` on, where the entry is no smaller. */
  function BisectLeft(s: seq<nat>, x: int, i: nat): (k: nat)
    requires i <= |s|
    requires forall j :: 0 <= j < i ==> s[j] < x
    ensures k <= |s| && (forall j :: 0 <= j < k ==> s[j] < x) && (k < |s| ==> s[k] >= x)
    decreases |s| - i
  {
    if i == |s| || s[i] >= x then i else BisectLeft(s, x, i + 1)
  }

  predicate Ascending(s: seq<nat>) {
    forall j, k :: 0 <= j < k < |s| ==> s[j] < s[k]
  }

  lemma BucketsAscend()
    ensures Ascending(DECODE_BUCKETS) && |DECODE_BUCKETS| == 20 && DECODE_BUCKETS[19] == MAX_DECODE_BATCH
  {
  }

  function SelectBucket(batch: int): (bucket: Option<nat>)
    ensures bucket.Some? <==> 1 <= batch <= MAX_DECODE_BATCH
  {
    if batch <= 0 || batch > MAX_DECODE_BATCH then None else
    assert DECODE_BUCKETS[19] == MAX_DECODE_BATCH;
    Some(DECODE_BUCKETS[BisectLeft(DECODE_BUCKETS, batch, 0)])
  }

  /** The bucket is the smallest one that the batch fits in. */
  lemma SmallestBucket(batch: int)
    requires SelectBucket(batch).Some?
    ensures var bucket := SelectBucket(batch).value;
            && bucket in DECODE_BUCKETS && batch <= bucket <= MAX_DECODE_BATCH
            && forall j :: 0 <= j < |DECODE_BUCKETS| && DECODE_BUCKETS[j] >= batch ==> bucket <= DECODE_BUCKETS[j]
  {
    BucketsAscend();
    var buckets := DECODE_BUCKETS;
    hide DECODE_BUCKETS;
    var k := BisectLeft(buckets, batch, 0);
    assert SelectBucket(batch).value == buckets[k];
  }

  /** A row that is only there to fill a bucket. */
  function Pad(dummy: BlockId): ScheduledRequest {
    ScheduledRequest("", [0], Decode, 0, [dummy], false, None)
  }

  function Pads(dummy: BlockId, n: nat): (s: seq<ScheduledRequest>)
    ensures |s| == n
  {
    seq(n, i => Pad(dummy))
  }

  /** What the packing accepts of a request with one token. */
  predicate Packable(r: ScheduledRequest, numBlocks: nat, dummy: BlockId, bl: Positive) {
    && r.start / bl < |r.blockTable| <= numBlocks
    && Pages(r.start + 1, bl) <= |r.blockTable|
    && dummy !in r.blockTable
  }

  predicate AllPackable(rs: seq<ScheduledRequest>, numBlocks: nat, dummy: BlockId, bl: Positive) {
    forall i :: 0 <= i < |rs| ==> Packable(rs[i], numBlocks, dummy, bl)
  }

  /** The packing asks for what a build asks for, a table that fits and no dummy block. */
  lemma PackableMeans(r: ScheduledRequest, numBlocks: nat, dummy: BlockId, bl: Positive)
    requires |r.input| == 1
    ensures Packable(r, numBlocks, dummy, bl) <==> RequestOk(r, bl) && |r.blockTable| <= numBlocks && dummy !in r.blockTable
  {
    var n := r.start;
    SpanOfQuotient(n, bl);
    QuotientIs(n + bl, bl, n / bl + 1);
  }

  /** A pad attends to the one slot at the start of the dummy block. */
  lemma PadMeans(dummy: BlockId, bl: Positive)
    ensures ContextLen(Pad(dummy)) == 1 && Pages(1, bl) == 1 && LastPageLen(1, bl) == 1
    ensures Positions(Pad(dummy)) == [0] && Slots(Pad(dummy), bl) == [dummy * bl]
  {
    assert 0 / bl == 0 && 0 % bl == 0 && bl / bl == 1;
    if bl > 1 { QuotientIs(1, bl, 0); DivModJoin(1, bl); }
  }

  /** The input that a plan determines, with tables as wide as the pool of blocks. */
  function BucketInput(rows: seq<ScheduledRequest>, numBlocks: nat, bl: Positive): ModelInput {
    ModelInput(AllTokens(rows), AllPositions(rows), AllSlots(rows, bl), QueryStarts(rows), ContextLens(rows), PaddedTables(rows, numBlocks))
  }

  function PaddedRows(rs: seq<ScheduledRequest>, dummy: BlockId, bucket: nat): (rows: seq<ScheduledRequest>)
    requires |rs| <= bucket
    ensures |rows| == bucket
  {
    rs + Pads(dummy, bucket - |rs|)
  }

  predicate OneTokenEach(rows: seq<ScheduledRequest>) {
    forall i :: 0 <= i < |rows| ==> |rows[i].input| == 1
  }

  function UpTo(n: nat): seq<int> { seq(n, i => i) }

  /** With one token each, the query starts count up ... */
  lemma {:induction false} StartsCountUp(rows: seq<ScheduledRequest>)
    requires OneTokenEach(rows)
    ensures QueryStarts(rows) == UpTo(|rows| + 1) && |AllTokens(rows)| == |rows|
  {
    if rows != [] {
      StartsCountUp(rows[..|rows| - 1]);
    }
  }

  /** ... and row `i` has the slot of request `i`. */
  lemma {:induction false} SlotOfRow(rows: seq<ScheduledRequest>, i: nat, bl: Positive)
    requires OneTokenEach(rows) && i < |rows|
    ensures |AllSlots(rows, bl)| == |rows| && AllSlots(rows, bl)[i] == SlotOf(rows[i].blockTable, rows[i].start, bl)
  {
    hide SlotOf;
    StartsCountUp(rows);
    StartsCountUp(rows[..|rows| - 1]);
    if i < |rows| - 1 {
      SlotOfRow(rows[..|rows| - 1], i, bl);
    }
  }

  /** The dummy block is written and read by the pads, and by nobody else. */
  lemma DummyOnlyInPads(rs: seq<ScheduledRequest>, numBlocks: nat, dummy: BlockId, bl: Positive, bucket: nat, q: nat)
    requires OneTokenEach(rs) && AllPackable(rs, numBlocks, dummy, bl) && |rs| <= bucket && q < bucket
    ensures var rows := PaddedRows(rs, dummy, bucket);
            && |AllSlots(rows, bl)| == bucket && (AllSlots(rows, bl)[q] / bl == dummy <==> q >= |rs|)
            && (dummy in rows[q].blockTable <==> q >= |rs|)
  {
    hide AllSlots;
    var rows := PaddedRows(rs, dummy, bucket);
    SlotOfRow(rows, q, bl);
    var r := rows[q];
    assert q < |rs| ==> Packable(rs[q], numBlocks, dummy, bl);
    assert 0 / bl == 0;
    assert r.start / bl < |r.blockTable|;
    SpanIsProduct(r.blockTable[r.start / bl], bl);
    DivModSplit(r.blockTable[r.start / bl], r.start % bl, bl);
  }

  lemma RowsBuildable(rs: seq<ScheduledRequest>, numBlocks: nat, dummy: BlockId, bl: Positive, bucket: nat)
    requires OneTokenEach(rs) && AllPackable(rs, numBlocks, dummy, bl) && |rs| <= bucket && numBlocks >= 1
    ensures var rows := PaddedRows(rs, dummy, bucket);
            OneTokenEach(rows) && forall i :: 0 <= i < bucket ==> RequestOk(rows[i], bl) && |rows[i].blockTable| <= numBlocks
  {
    hide Pages, Packable;
    var rows := PaddedRows(rs, dummy, bucket);
    forall i | 0 <= i < bucket ensures RequestOk(rows[i], bl) && |rows[i].blockTable| <= numBlocks {
      if i < |rs| {
        assert Packable(rs[i], numBlocks, dummy, bl);
        PackableMeans(rs[i], numBlocks, dummy, bl);
      } else {
        PadMeans(dummy, bl);
      }
    }
  }

  /** A packed bucket says where everything is, for the plan's requests and for the pads. */
  lemma BucketDescribes(rs: seq<ScheduledRequest>, numBlocks: nat, dummy: BlockId, bl: Positive, bucket: nat)
    requires OneTokenEach(rs) && AllPackable(rs, numBlocks, dummy, bl) && |rs| <= bucket && numBlocks >= 1
    ensures var rows := PaddedRows(rs, dummy, bucket);
            && Describes(BucketInput(rows, numBlocks, bl), rows, bl)
            && RowsLongEnough(PagedRows(rows), bl) && PagesDescribe(CsrOf(PagedRows(rows), bl), rows, bl)
  {
    hide RequestOk, Packable, InTable, AllTokens, AllPositions, AllSlots, QueryStarts, Describes, PagesDescribe, CsrOf;
    var rows := PaddedRows(rs, dummy, bucket);
    RowsBuildable(rs, numBlocks, dummy, bl, bucket);
    forall i | 0 <= i < |rows| ensures InTable(rows[i], bl) { EnoughPages(rows[i], bl); }
    InputDescribes(rows, bl, numBlocks);
    CsrDescribes(rows, bl);
  }

  /** The pages of the packed input are those laid out from its own padded tables. */
  lemma PagesOfBucket(rs: seq<ScheduledRequest>, numBlocks: nat, dummy: BlockId, bl: Positive, bucket: nat)
    requires OneTokenEach(rs) && AllPackable(rs, numBlocks, dummy, bl) && |rs| <= bucket && numBlocks >= 1
    ensures var rows := PaddedRows(rs, dummy, bucket);
            var ps := InputRows(BucketInput(rows, numBlocks, bl));
            RowsLongEnough(PagedRows(rows), bl) && RowsLongEnough(ps, bl) && CsrOf(PagedRows(rows), bl) == CsrOf(ps, bl)
  {
    hide Pages, AllTokens, AllPositions, AllSlots, QueryStarts, SlotOf, CsrOf, Packable;
    var rows := PaddedRows(rs, dummy, bucket);
    RowsBuildable(rs, numBlocks, dummy, bl, bucket);
    PaddingInvisible(PagedRows(rows), InputRows(BucketInput(rows, numBlocks, bl)), bl);
  }

  /** Buckets of a captured decode forward: one token a row, rows beyond the batch on a dummy block. */
  class DecodeCudaGraph {
    const bl: Positive
    const numBlocks: Positive
    const dummy: BlockId
    const staging: Staging
    var inputs: map<nat, ModelInput>
    var failed: set<nat>
    var csrNnz: nat

    predicate Valid() {
      && staging.Valid()
      && staging.batchCap == staging.tokensCap == MAX_DECODE_BATCH && staging.pagesCap == numBlocks
      && staging.nnzCap == Span(MAX_DECODE_BATCH, numBlocks)
    }

    constructor (bl: Positive, numBlocks: Positive, dummy: BlockId)
      ensures Valid() && fresh(staging) && fresh(staging.Buffers())
    {
      this.bl, this.numBlocks, this.dummy := bl, numBlocks, dummy;
      staging := new Staging(MAX_DECODE_BATCH, numBlocks, MAX_DECODE_BATCH, Span(MAX_DECODE_BATCH, numBlocks));
      inputs, failed, csrNnz := map[], {}, 0;
    }

    /** The tables are those of these requests, then of pads. */
    ghost predicate TablesPadded(done: seq<ScheduledRequest>, bucket: nat)
      requires Valid() && |done| <= bucket <= MAX_DECODE_BATCH
      reads staging.pages
    {
      forall q, c :: 0 <= q < bucket && 0 <= c < numBlocks ==>
        staging.pages[q, c] == Entry(if q < |done| then done[q].blockTable else [dummy], c)
    }

    /** All rows of a bucket as pads. */
    method ClearTables(bucket: nat)
      requires Valid() && bucket <= MAX_DECODE_BATCH
      modifies staging.pages
      ensures TablesPadded([], bucket)
    {
      forall q, c | 0 <= q < bucket && 0 <= c < numBlocks {
        staging.pages[q, c] := -1;
      }
      forall q | 0 <= q < bucket {
        staging.pages[q, 0] := dummy;
      }
    }

    lemma StartsEmpty()
      requires Valid() && staging.indptr[0] == 0
      ensures staging.HoldsTokens([], bl) && staging.HoldsPages([], bl)
      ensures |AllTokens([])| == 0 && PageCount(PagedRows([]), bl) == 0
    {
      assert staging.indptr[..1] == [0];
    }

    /** A table over a pad, entry by entry, unless it has the dummy block. */
    method PutTable(ghost done: seq<ScheduledRequest>, r: ScheduledRequest, index: nat, bucket: nat) returns (ok: bool)
      requires Valid() && index == |done| < bucket <= MAX_DECODE_BATCH && TablesPadded(done, bucket)
      requires 1 <= |r.blockTable| <= numBlocks
      modifies staging.pages
      ensures ok <==> dummy !in r.blockTable
      ensures ok ==> TablesPadded(done + [r], bucket)
    {
      for i := 0 to |r.blockTable|
        invariant dummy !in r.blockTable[..i]
        invariant forall c :: 0 <= c < numBlocks ==>
                    staging.pages[index, c] == if c < i then r.blockTable[c] else Entry([dummy], c)
        invariant forall q, c :: 0 <= q < bucket && q != index && 0 <= c < numBlocks ==>
                    staging.pages[q, c] == old(staging.pages[q, c])
      {
        if r.blockTable[i] == dummy {
          return false;
        }
        staging.pages[index, i] := r.blockTable[i];
      }
      assert r.blockTable[..|r.blockTable|] == r.blockTable;
      ok := true;
    }

    /** A row beyond the batch. */
    method PutPad(ghost done: seq<ScheduledRequest>, index: nat, nnz: nat)
      requires Valid() && index == |done| == |AllTokens(done)| < MAX_DECODE_BATCH
      requires staging.HoldsTokens(done, bl) && staging.HoldsPages(done, bl)
      requires nnz == PageCount(PagedRows(done), bl) < staging.nnzCap
      modifies staging.tokens, staging.position, staging.slots, staging.context, staging.indptr, staging.indices, staging.lastPage
      ensures staging.HoldsTokens(done + [Pad(dummy)], bl) && staging.HoldsPages(done + [Pad(dummy)], bl)
    {
      hide Pages, LastPageLen, Slots, Positions, ContextLen, AllTokens, AllPositions, AllSlots, PageCount, CsrOf, ContextLens;
      staging.tokens[index] := 0;
      staging.position[index] := 0;
      staging.slots[index] := dummy * bl;
      staging.context[index] := 1;
      staging.indices[nnz] := dummy;
      staging.lastPage[index] := 1;
      staging.indptr[index + 1] := nnz + 1;
      ghost var ps, p := PagedRows(done), Pad(dummy);
      PadMeans(dummy, bl);
      AppendRequest(done, p, bl);
      AppendPages(ps, PagedOf(p), bl);
      assert staging.tokens[..index + 1] == staging.tokens[..index] + [0];
      assert staging.position[..index + 1] == staging.position[..index] + [0];
      assert staging.slots[..index + 1] == staging.slots[..index] + [staging.slots[index]];
      assert staging.context[..index + 1] == staging.context[..index] + [1];
      assert staging.lastPage[..index + 1] == staging.lastPage[..index] + [1];
      assert staging.indptr[..index + 2] == staging.indptr[..index + 1] + [nnz + 1];
      assert staging.indices[..nnz + 1] == staging.indices[..nnz] + [dummy];
    }

    /** All buffers hold these requests, and pads below them in the tables. */
    ghost predicate Holds(done: seq<ScheduledRequest>, bucket: nat, nnz: nat)
      requires Valid() && |done| <= bucket <= MAX_DECODE_BATCH
      reads staging.Buffers()
    {
      && TablesPadded(done, bucket)
      && staging.HoldsTokens(done, bl) && |AllTokens(done)| == |done|
      && staging.HoldsPages(done, bl) && nnz == PageCount(PagedRows(done), bl) <= Span(|done|, numBlocks)
    }

    /** One request of the plan. */
    method PackRow(ghost done: seq<ScheduledRequest>, r: ScheduledRequest, index: nat, nnz: nat, bucket: nat)
      returns (ok: bool, newNnz: nat)
      requires Valid() && index == |done| < bucket <= MAX_DECODE_BATCH && |r.input| == 1 && Holds(done, bucket, nnz)
      modifies staging.Buffers()
      ensures ok <==> Packable(r, numBlocks, dummy, bl)
      ensures ok ==> Holds(done + [r], bucket, newNnz)
    {
      hide Pages, AllTokens, AllPositions, AllSlots, PageCount, CsrOf, TablesPadded, Staging.HoldsTokens, Staging.HoldsPages;
      var table, logical, pageCount := r.blockTable, r.start / bl, Pages(r.start + 1, bl);
      newNnz := nnz;
      if logical >= |table| || |table| > numBlocks || pageCount > |table| {
        return false, nnz;
      }
      if table[logical] == dummy {
        return false, nnz;
      }
      AppendRequest(done, r, bl);
      AppendCount(PagedRows(done), PagedOf(r), bl);
      SpanMono(index + 1, MAX_DECODE_BATCH, numBlocks);
      staging.PutTokens(done, r, index, bl);
      ok := PutTable(done, r, index, bucket);
      if ok {
        newNnz := staging.PutPages(done, r, index, nnz, bl);
      }
    }

    method PackPad(ghost rows: seq<ScheduledRequest>, index: nat, nnz: nat, bucket: nat) returns (newNnz: nat)
      requires Valid() && index == |rows| < bucket <= MAX_DECODE_BATCH && Holds(rows, bucket, nnz)
      modifies staging.tokens, staging.position, staging.slots, staging.context, staging.indptr, staging.indices, staging.lastPage
      ensures Holds(rows + [Pad(dummy)], bucket, newNnz)
    {
      hide Pages, AllTokens, AllPositions, AllSlots, PageCount, CsrOf, Staging.HoldsTokens, Staging.HoldsPages;
      AppendRequest(rows, Pad(dummy), bl);
      AppendCount(PagedRows(rows), PagedOf(Pad(dummy)), bl);
      PadMeans(dummy, bl);
      SpanMono(index + 1, MAX_DECODE_BATCH, numBlocks);
      PutPad(rows, index, nnz);
      newNnz := nnz + 1;
    }

    /** The rows beyond the batch. */
    method PackPads(ghost rs: seq<ScheduledRequest>, batch: nat, nnz: nat, bucket: nat) returns (newNnz: nat)
      requires Valid() && batch == |rs| <= bucket <= MAX_DECODE_BATCH && Holds(rs, bucket, nnz)
      modifies staging.tokens, staging.position, staging.slots, staging.context, staging.indptr, staging.indices, staging.lastPage
      ensures Holds(rs + Pads(dummy, bucket - batch), bucket, newNnz)
    {
      hide DecodeCudaGraph.Holds;
      newNnz := nnz;
      assert rs + Pads(dummy, 0) == rs;
      for index := batch to bucket
        invariant Holds(rs + Pads(dummy, index - batch), bucket, newNnz)
      {
        ghost var rows := rs + Pads(dummy, index - batch);
        assert rs + Pads(dummy, index + 1 - batch) == rows + [Pad(dummy)];
        newNnz := PackPad(rows, index, newNnz, bucket);
      }
    }

    /** What is copied for a bucket, with one token a row. */
    function Packed(bucket: nat): ModelInput
      requires Valid() && bucket <= MAX_DECODE_BATCH
      reads staging.Buffers()
    {
      ModelInput(staging.tokens[..bucket], staging.position[..bucket], staging.slots[..bucket], UpTo(bucket + 1),
                 staging.context[..bucket], staging.Tables(bucket, numBlocks))
    }

    lemma BucketHeld(rs: seq<ScheduledRequest>, bucket: nat, nnz: nat)
      requires Valid() && OneTokenEach(rs) && AllPackable(rs, numBlocks, dummy, bl) && |rs| <= bucket <= MAX_DECODE_BATCH
      requires Holds(PaddedRows(rs, dummy, bucket), bucket, nnz)
      ensures Packed(bucket) == BucketInput(PaddedRows(rs, dummy, bucket), numBlocks, bl)
      ensures Describes(Packed(bucket), PaddedRows(rs, dummy, bucket), bl)
      ensures nnz <= staging.nnzCap && PagesDescribe(staging.Layout(bucket, nnz), PaddedRows(rs, dummy, bucket), bl)
    {
      hide Packable, AllTokens, AllPositions, AllSlots, QueryStarts, Describes, PagesDescribe, CsrOf, PageCount;
      hide DecodeCudaGraph.Holds, ContextLens, PaddedTables;
      var rows := PaddedRows(rs, dummy, bucket);
      BucketDescribes(rs, numBlocks, dummy, bl, bucket);
      RowsBuildable(rs, numBlocks, dummy, bl, bucket);
      StartsCountUp(rows);
      CopyHolds(rows, bucket, nnz);
    }

    /** `_fill_from_plan`, up to the copy: the requests, then pads. */
    method FillFromPlan(bucket: nat, rs: seq<ScheduledRequest>) returns (ok: bool, nnz: nat)
      requires Valid() && DecodeOnly(rs) && |rs| <= bucket <= MAX_DECODE_BATCH
      modifies staging.Buffers()
      ensures ok <==> AllPackable(rs, numBlocks, dummy, bl)
      ensures ok ==> Holds(rs + Pads(dummy, bucket - |rs|), bucket, nnz)
      ensures ok ==>
                && Describes(Packed(bucket), PaddedRows(rs, dummy, bucket), bl)
                && nnz <= staging.nnzCap && PagesDescribe(staging.Layout(bucket, nnz), PaddedRows(rs, dummy, bucket), bl)
    {
      hide Describes, PagesDescribe;
      hide Packable, Pages, AllTokens, AllPositions, AllSlots, PageCount, CsrOf, TablesPadded, Staging.HoldsTokens, Staging.HoldsPages;
      ClearTables(bucket);
      staging.indptr[0] := 0;
      nnz := 0;
      StartsEmpty();
      for i := 0 to |rs|
        invariant AllPackable(rs[..i], numBlocks, dummy, bl) && Holds(rs[..i], bucket, nnz)
      {
        assert rs[..i + 1] == rs[..i] + [rs[i]];
        ok, nnz := PackRow(rs[..i], rs[i], i, nnz, bucket);
        if !ok {
          return;
        }
      }
      assert rs[..|rs|] == rs;
      nnz := PackPads(rs, |rs|, nnz, bucket);
      BucketHeld(rs, bucket, nnz);
      ok := true;
    }

    /** The page layout handed to a replay. */
    function PackedCsr(bucket: nat): Csr
      requires Valid() && bucket <= MAX_DECODE_BATCH && csrNnz <= staging.nnzCap
      reads this, staging.indptr, staging.indices, staging.lastPage
    {
      Csr(staging.indptr[..bucket + 1], staging.indices[..csrNnz], staging.lastPage[..bucket])
    }

    predicate Accepts(rs: seq<ScheduledRequest>)
      reads this
    {
      && DecodeOnly(rs) && |rs| <= MAX_DECODE_BATCH && SelectBucket(|rs|).value !in failed
      && AllPackable(rs, numBlocks, dummy, bl)
    }

    /** A packed plan is the fresh input of the plan filled up with pads, in the smallest bucket, whatever
        was packed before. */
    method PackPlan(rs: seq<ScheduledRequest>) returns (packed: Option<(nat, nat)>)
      requires Valid()
      modifies this, staging.Buffers()
      ensures Valid() && failed == old(failed) && (packed.Some? <==> old(Accepts(rs)))
      ensures packed.Some? ==>
                var (bucket, batch) := packed.value;
                && batch == |rs| && Some(bucket) == SelectBucket(batch) && batch <= bucket <= MAX_DECODE_BATCH
                && var input := BucketInput(PaddedRows(rs, dummy, bucket), numBlocks, bl);
                   && inputs == old(inputs)[bucket := input]
                   && RowsLongEnough(InputRows(input), bl) && csrNnz <= staging.nnzCap
                   && PackedCsr(bucket) == CsrOf(InputRows(input), bl)
                   && Describes(input, PaddedRows(rs, dummy, bucket), bl)
                   && PagesDescribe(PackedCsr(bucket), PaddedRows(rs, dummy, bucket), bl)
      ensures packed.None? ==> inputs == old(inputs) && csrNnz == old(csrNnz)
    {
      hide Describes, PagesDescribe;
      hide Packable, Pages, AllTokens, AllPositions, AllSlots, QueryStarts, PageCount, CsrOf, SelectBucket, PaddedTables, ContextLens;
      if !DecodeOnly(rs) {
        return None;
      }
      var selected := SelectBucket(|rs|);
      if selected.None? || selected.value in failed {
        return None;
      }
      SmallestBucket(|rs|);
      var bucket := selected.value;
      var ok, nnz := FillFromPlan(bucket, rs);
      if !ok {
        return None;
      }
      ghost var rows := PaddedRows(rs, dummy, bucket);
      StartsCountUp(rows);
      PagesOfBucket(rs, numBlocks, dummy, bl, bucket);
      CopyHolds(rows, bucket, nnz);
      inputs := inputs[bucket := Packed(bucket)];
      csrNnz := nnz;
      packed := Some((bucket, |rs|));
    }

    lemma CopyHolds(rows: seq<ScheduledRequest>, bucket: nat, nnz: nat)
      requires Valid() && |rows| == bucket <= MAX_DECODE_BATCH && Holds(rows, bucket, nnz)
      ensures staging.tokens[..bucket] == AllTokens(rows) && staging.position[..bucket] == AllPositions(rows)
      ensures staging.slots[..bucket] == AllSlots(rows, bl) && staging.context[..bucket] == ContextLens(rows)
      ensures staging.Tables(bucket, numBlocks) == PaddedTables(rows, numBlocks)
      ensures RowsLongEnough(PagedRows(rows), bl) && nnz <= staging.nnzCap
      ensures Csr(staging.indptr[..bucket + 1], staging.indices[..nnz], staging.lastPage[..bucket]) == CsrOf(PagedRows(rows), bl)
    {
      hide Pages, AllTokens, AllPositions, AllSlots, PageCount, CsrOf, ContextLens;
      staging.TablesHeld(rows, numBlocks);
    }
  }
}
