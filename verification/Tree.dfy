/** The address classifier `acl::compiler::tree_t`: chunks written in place by recursive steps. */
module Tree {
  import opened Base
  import opened Nets
  import opened Masks
  import NetOrder
  import opened Partition
  import opened ChunkForest
  import opened TreeInsert
  import opened TreeMerge
  import opened TreeGaps
  import opened TreePrepare
  import opened TreeCompose
  import opened TreeGet

  /** Some address of the network has group id g, or some address of each piece of a composed network has. */
  ghost predicate PieceSeen(chunks: seq<Chunk>, height: seq<nat>, warps: seq<Warp>, inter: Intersections, n: Net,
                            g: nat)
    requires WellFormed(chunks, height) && 0 < |chunks| && height[0] == |n.addr| == |n.mask|
  {
    if IsComposed(warps, inter, n)
    then Seen(chunks, height, 0, RegionOf(n).addr, RegionOf(n).mask, g)
         && Seen(chunks, height, 0, WideIn(warps, inter, n).addr, WideIn(warps, inter, n).mask, g)
    else Seen(chunks, height, 0, n.addr, n.mask, g)
  }

  class AclTree {
    var chunks: seq<Chunk>
    ghost var height: seq<nat>
    ghost var roots: set<nat>
    var prefixes: seq<Net>
    var warps: seq<Warp>
    var intersections: Intersections

    var mergeGroupId: nat
    var mergeExtended: map<nat, nat>
    var mergeRemap: Memo
    ghost var join: Joins
    ghost var frozen: set<nat>

    var multirefs: seq<set<nat>>
    var saved: map<Net, set<nat>>

    constructor (ghost h: nat)
      requires h > 0
      ensures Stage(chunks, height, roots, warps, iset{}, h) && warps == [] && prefixes == [] && intersections == map[]
      ensures mergeExtended == map[] && mergeRemap == map[] && saved == map[]
    {
      StageFresh(h);
      chunks, height, roots, warps := [Filled(false, Group(0))], [h], {0}, [];
      prefixes, intersections := [], map[];
      mergeGroupId, mergeExtended, mergeRemap, join, frozen := 0, map[], map[], map[], {};
      multirefs, saved := [], map[];
    }

    ghost predicate Formed()
      reads this
    {
      WellFormed(chunks, height) && Rooted(height, roots)
    }

    ghost function Ids(): imap<Cell, nat>
      reads this
      requires Formed()
    {
      Labels(chunks, height, roots)
    }

    ghost function Form(): Shape
      reads this
      requires Formed()
    {
      ShapeOf(chunks)
    }

    /** The branch of `update_group_id_next` for a value that is a group id. */
    method UpdateLeaf(groupId: nat, remap: seq<nat>, c: nat, d: bv8,
                      ghost before: imap<Cell, nat>, ghost done: iset<Cell>)
      returns (groupId': nat, remap': seq<nat>)
      requires Formed() && c < |chunks| && |remap| >= 1 && chunks[c].At(d).Group?
      requires Splitting(before, Ids(), done, Assigned(remap), |remap|, groupId)
      modifies this`chunks
      ensures Formed() && Form() == old(Form()) && Flags(chunks) == old(Flags(chunks))
      ensures |remap'| == |remap|
      ensures Splitting(before, Ids(), done + SlotCells(Form(), height, roots, c, d), Assigned(remap'), |remap|,
                        groupId')
    {
      hide SlotCells, Flags;
      groupId', remap' := groupId, remap;
      ghost var was, ids := chunks, Ids();
      ghost var cells := SlotCells(Form(), height, roots, c, d);
      forall x | IsCell(height, roots, x)
        ensures x in cells ==> ids[x] == chunks[c].At(d).id
      {
        LeafSlotCells(chunks, height, roots, c, d, x);
      }
      var g := chunks[c].At(d).id;
      if g < |remap| {
        if remap[g] == 0 {
          AssignedUpdate(remap, g, groupId);
          remap', groupId' := remap[g := groupId], groupId + 1;
        }
        RelabelShape(chunks, c, d, remap'[g]);
        chunks := chunks[c := chunks[c].Put(d, Group(remap'[g]))];
        forall x | IsCell(height, roots, x)
          ensures Lookup(chunks, height, x.0, x.1) == if x in cells then remap'[g] else ids[x]
        {
          RelabelSlot(was, height, roots, c, d, remap'[g], x);
        }
        SplitMove(before, ids, Ids(), done, cells, Assigned(remap), Assigned(remap'), |remap|, groupId, groupId', g);
      } else {
        SplitSeen(before, ids, done, cells, Assigned(remap), |remap|, groupId);
      }
    }

    /** The loop of `update_group_id_next` over the values of a chunk. */
    method UpdateChunk(groupId: nat, remap: seq<nat>, k: nat, prev: set<nat>, ghost top: nat,
                       ghost before: imap<Cell, nat>, ghost done: iset<Cell>)
      returns (groupId': nat, remap': seq<nat>, prev': set<nat>)
      requires Formed() && k < |chunks| && height[k] < top && |remap| >= 1
      requires Splitting(before, Ids(), done, Assigned(remap), |remap|, groupId)
      requires Visited(Form(), height, roots, prev, top, done)
      modifies this`chunks
      ensures Formed() && Form() == old(Form()) && Flags(chunks) == old(Flags(chunks))
      ensures |remap'| == |remap|
      ensures Splitting(before, Ids(), done + ChunkCells(Form(), height, roots, k), Assigned(remap'), |remap|, groupId')
      ensures Visited(Form(), height, roots, prev', top, done + ChunkCells(Form(), height, roots, k))
      decreases height[k], 1
    {
      hide Splitting, Visited, Layered, Sized, Rooted, FirstCells, SlotCells, ChunkCells, Labels, Flags, ShapeOf;
      groupId', remap', prev' := groupId, remap, prev;
      ghost var s := Form();
      ghost var now := done;
      FirstCellsNone(s, height, roots, k);
      var i: bv8, more := 0, true;
      while more
        invariant Formed() && Form() == s && Flags(chunks) == old(Flags(chunks))
        invariant |remap'| == |remap|
        invariant now == done + if more then FirstCells(s, height, roots, k, i) else ChunkCells(s, height, roots, k)
        invariant Splitting(before, Ids(), now, Assigned(remap'), |remap|, groupId')
        invariant Visited(s, height, roots, prev', top, now)
        decreases more, !i
      {
        groupId', remap', prev' := UpdateNext(groupId', remap', k, i, prev', top, before, now);
        now := now + SlotCells(s, height, roots, k, i);
        if i == 0xFF {
          FirstCellsLast(s, height, roots, k);
          more := false;
        } else {
          FirstCellsStep(s, height, roots, k, i);
          i := i + 1;
        }
      }
    }

    /** `update_group_id_next`: moves every address that ends below the slot to its remapped id. */
    method UpdateNext(groupId: nat, remap: seq<nat>, c: nat, d: bv8, prev: set<nat>, ghost top: nat,
                      ghost before: imap<Cell, nat>, ghost done: iset<Cell>)
      returns (groupId': nat, remap': seq<nat>, prev': set<nat>)
      requires Formed() && c < |chunks| && height[c] <= top && |remap| >= 1
      requires Splitting(before, Ids(), done, Assigned(remap), |remap|, groupId)
      requires Visited(Form(), height, roots, prev, top, done)
      modifies this`chunks
      ensures Formed() && Form() == old(Form()) && Flags(chunks) == old(Flags(chunks))
      ensures |remap'| == |remap|
      ensures Splitting(before, Ids(), done + SlotCells(Form(), height, roots, c, d), Assigned(remap'), |remap|,
                        groupId')
      ensures Visited(Form(), height, roots, prev', top, done + SlotCells(Form(), height, roots, c, d))
      decreases height[c], 0
    {
      hide Splitting, Layered, Rooted, SlotCells, ChunkCells, Labels, Flags, ShapeOf;
      groupId', remap', prev' := groupId, remap, prev;
      ghost var s := Form();
      match chunks[c].At(d)
      case Link(k) =>
        LinkSlotCells(chunks, height, roots, c, d);
        if k !in prev {
          groupId', remap', prev' := UpdateChunk(groupId, remap, k, prev, top, before, done);
          VisitedAdd(s, height, roots, prev', top, done, k);
          prev' := prev' + {k};
        } else {
          assert done + ChunkCells(s, height, roots, k) == done;
          VisitedGrows(s, height, roots, prev, top, done, done + ChunkCells(s, height, roots, k));
        }
      case Group(g) =>
        groupId', remap' := UpdateLeaf(groupId, remap, c, d, before, done);
        VisitedGrows(s, height, roots, prev, top, done, done + SlotCells(s, height, roots, c, d));
    }

    ghost predicate Ready(nets: iset<(nat, Net)>)
      reads this
    {
      Formed() && 0 in roots && Exact(Form(), height)
      && Aligned(Form(), Flags(chunks), roots, nets) && Gaps(Form(), Flags(chunks), roots, warps)
    }

    /** Gives a slot of a private chunk a private chunk of its own; no address changes its id. */
    method Privatise(c: nat, d: bv8, ghost nets: iset<(nat, Net)>, ghost r: nat, ghost q: Digits)
      requires Ready(nets) && r in roots && c < |chunks| && !chunks[c].multirefs
      requires Walk(Form(), r, q) == Some(c) && height[c] >= 2
      modifies this`chunks, this`height
      ensures Ready(nets) && Ids() == old(Ids())
      ensures chunks == Hang(old(chunks), c, d) && height == HangHeight(old(height), c)
      ensures Walk(Form(), r, q) == Some(c)
      ensures Walk(Form(), r, q + [d]) == Some(|chunks| - 1)
    {
      hide Aligned, Gaps, Layered, NewPath, Exact, Walk, Labels, Hang;
      HangKeeps(chunks, height, roots, nets, c, d, r, q);
      NewPathGaps(Form(), ShapeOf(Hang(chunks, c, d)), Flags(chunks), Flags(Hang(chunks, c, d)), roots, warps, r,
                  q + [d]);
      height := HangHeight(height, c);
      chunks := Hang(chunks, c, d);
    }

    /** `insert_step`: below chunk c, at path q of root r, splits the groups by the network. */
    method InsertStep(addr: Digits, mask: Digits, groupId: nat, remap: seq<nat>, c: nat,
                      ghost nets: iset<(nat, Net)>, ghost r: nat, ghost net: Net, ghost q: Digits,
                      ghost before: imap<Cell, nat>, ghost done: iset<Cell>)
      returns (groupId': nat, remap': seq<nat>)
      requires Ready(nets) && r in roots && (r, net) in nets
      requires Contiguous(mask) && |addr| == |mask| && (|q| > 0 ==> !AllZero(mask))
      requires net == Net(q + addr, Ones(|q|) + mask) && |net.addr| == height[r]
      requires c < |chunks| && !chunks[c].multirefs && Walk(Form(), r, q) == Some(c)
      requires |remap| >= 1 && Splitting(before, Ids(), done, Assigned(remap), |remap|, groupId)
      modifies this`chunks, this`height
      ensures Ready(nets) && Extends(old(height), height)
      ensures |remap'| == |remap|
      ensures Splitting(before, Ids(), done + NetCells(r, net), Assigned(remap'), |remap|, groupId')
      decreases |addr|
    {
      hide Splitting, Aligned, Gaps, Labels, NetCells, Walk, Layered, Exact, Flags, Sized;
      if AllZero(mask[1..]) {
        groupId', remap' := InsertLast(addr, mask, groupId, remap, c, nets, r, net, q, before, done);
      } else {
        var d := addr[0] & mask[0];
        PathStep(addr, mask, q);
        WalkExact(Form(), height, r, q);
        var k := Descend(c, d, nets, r, q);
        ghost var was := height;
        groupId', remap' := InsertStep(addr[1..], mask[1..], groupId, remap, k, nets, r, net, q + [d], before, done);
        ExtendsTransitive(old(height), was, height);
      }
    }

    /** Makes the chunk below slot d private and enters it. */
    method Descend(c: nat, d: bv8, ghost nets: iset<(nat, Net)>, ghost r: nat, ghost q: Digits) returns (k: nat)
      requires Ready(nets) && r in roots && c < |chunks| && !chunks[c].multirefs
      requires Walk(Form(), r, q) == Some(c) && height[c] >= 2
      modifies this`chunks, this`height
      ensures Ready(nets) && Ids() == old(Ids()) && Extends(old(height), height)
      ensures k < |chunks| && !chunks[k].multirefs && Walk(Form(), r, q + [d]) == Some(k)
    {
      hide Aligned, Gaps, Labels, Exact, Flags, Layered, Walk, Hang, HangHeight;
      var value := chunks[c].At(d);
      SlotValues(chunks, height, c, d);
      WalkMore(Form(), r, q, d);
      if value.Group? || chunks[value.chunk].multirefs {
        HangMarks(chunks, height, c, d);
        Privatise(c, d, nets, r, q);
        k := |chunks| - 1;
      } else {
        k := value.chunk;
      }
    }

    /** One round of the loop of `insert_step`: all addresses below slot d of chunk c are visited. */
    method InsertSlot(groupId: nat, remap: seq<nat>, c: nat, d: bv8, prev: set<nat>,
                      ghost nets: iset<(nat, Net)>, ghost r: nat, ghost q: Digits,
                      ghost before: imap<Cell, nat>, ghost done: iset<Cell>)
      returns (groupId': nat, remap': seq<nat>, prev': set<nat>)
      requires Ready(nets) && r in roots
      requires c < |chunks| && !chunks[c].multirefs && Walk(Form(), r, q) == Some(c)
      requires |remap| >= 1 && Splitting(before, Ids(), done, Assigned(remap), |remap|, groupId)
      requires Visited(Form(), height, roots, prev, height[c], done)
      modifies this`chunks, this`height
      ensures Ready(nets) && Extends(old(height), height)
      ensures !chunks[c].multirefs && Walk(Form(), r, q) == Some(c)
      ensures |remap'| == |remap|
      ensures Splitting(before, Ids(), done + SlotCells(Form(), height, roots, c, d), Assigned(remap'), |remap|,
                        groupId')
      ensures Visited(Form(), height, roots, prev', height[c], done + SlotCells(Form(), height, roots, c, d))
    {
      hide Splitting, Visited, Aligned, Gaps, SlotCells, ChunkCells, Labels, Walk, Hang, HangHeight, Exact, Layered;
      SlotValues(chunks, height, c, d);
      var value := chunks[c].At(d);
      if value.Link? && chunks[value.chunk].multirefs {
        HangKeeps(chunks, height, roots, nets, c, d, r, q);
        HangVisited(chunks, height, roots, c, d, prev, done);
        HangMarks(chunks, height, c, d);
        Privatise(c, d, nets, r, q);
      }
      ghost var flags := Flags(chunks);
      assert !flags[c];
      groupId', remap', prev' := UpdateNext(groupId, remap, c, d, prev, height[c], before, done);
      assert Flags(chunks)[c] == flags[c];
    }

    /** The loop of `insert_step` over the slots that the last byte of the mask leaves open. */
    method InsertLast(addr: Digits, mask: Digits, groupId: nat, remap: seq<nat>, c: nat,
                      ghost nets: iset<(nat, Net)>, ghost r: nat, ghost net: Net, ghost q: Digits,
                      ghost before: imap<Cell, nat>, ghost done: iset<Cell>)
      returns (groupId': nat, remap': seq<nat>)
      requires Ready(nets) && r in roots && (r, net) in nets
      requires Contiguous(mask) && |addr| == |mask| && (|q| > 0 ==> !AllZero(mask)) && AllZero(mask[1..])
      requires net == Net(q + addr, Ones(|q|) + mask) && |net.addr| == height[r]
      requires c < |chunks| && !chunks[c].multirefs && Walk(Form(), r, q) == Some(c)
      requires |remap| >= 1 && Splitting(before, Ids(), done, Assigned(remap), |remap|, groupId)
      modifies this`chunks, this`height
      ensures Ready(nets) && Extends(old(height), height)
      ensures |remap'| == |remap|
      ensures Splitting(before, Ids(), done + NetCells(r, net), Assigned(remap'), |remap|, groupId')
    {
      hide Splitting, Visited, Aligned, Gaps, SlotCells, ChunkCells, Walk, Covers, Level, Exact, Leading, NetCells;
      hide Low, High, Between, DigitsDone, Labels, Layered;
      groupId', remap' := groupId, remap;
      var prev: set<nat> := {};
      ghost var now := done;
      var first, last := Low(addr[0], mask[0]), High(addr[0], mask[0]);
      WalkExact(Form(), height, r, q);
      VisitedNone(Form(), height, roots, height[c], done);
      var d, more := first, true;
      DigitsStart(before.Keys, now, r, q, addr[0], mask[0]);
      while more
        invariant Ready(nets) && Extends(old(height), height)
        invariant |remap'| == |remap|
        invariant c < |chunks| && !chunks[c].multirefs && Walk(Form(), r, q) == Some(c)
        invariant Splitting(before, Ids(), now, Assigned(remap'), |remap|, groupId')
        invariant Visited(Form(), height, roots, prev, height[c], now)
        invariant SlotsDone(before.Keys, done, now, r, net)
        invariant more ==> Between(first, d, last)
        invariant DigitsDone(before.Keys, now, r, q, first, last, d, more)
        decreases more, !d
      {
        ghost var was := height;
        groupId', remap', prev := InsertSlot(groupId', remap', c, d, prev, nets, r, q, before, now);
        SlotCellsStep(Form(), height, Flags(chunks), roots, nets, r, net, addr, mask, q, c, d);
        ghost var cells := SlotCells(Form(), height, roots, c, d);
        ExtendsTransitive(old(height), was, height);
        LabelsKeys(chunks, height, roots);
        SplittingKeys(before, Ids(), now + cells, Assigned(remap'), |remap|, groupId');
        DigitsStep(before.Keys, now, cells, r, q, first, last, d);
        SlotsDoneStep(before.Keys, done, now, cells, r, net);
        now := now + cells;
        if d == last {
          more := false;
        } else {
          d := d + 1;
        }
      }
      LabelsKeys(chunks, height, roots);
      SplittingKeys(before, Ids(), now, Assigned(remap'), |remap|, groupId');
      SlotsDoneAll(before.Keys, done, now, r, net, addr, mask, q, d);
      SplitSame(before, Ids(), now, done + NetCells(r, net), Assigned(remap'), |remap|, groupId');
    }

    ghost predicate Merges(lo: nat, next: nat)
      reads this
    {
      lo <= mergeGroupId && Merging(chunks, height, join, frozen, mergeRemap, mergeExtended, lo, next)
    }

    /** `merge_chunk`: merges the warp chunk into the origin chunk, slot by slot. */
    method MergeChunk(warp: nat, origin: nat, groupId: nat, ghost lo: nat) returns (groupId': nat)
      requires Merges(lo, groupId) && warp in frozen && origin < |chunks| && height[warp] <= height[origin]
      requires Loose(chunks, height, frozen, lo, origin)
      modifies this`chunks, this`height, this`mergeExtended, this`mergeRemap, this`join, this`frozen
      ensures Merges(lo, groupId')
      ensures ChunkStep(old(chunks), old(height), old(join), old(frozen), chunks, height, join, frozen, warp, origin)
      decreases height[origin], 2
    {
      hide Loose, ChunkStep, SlotReady, SlotStep, ChunkLoop, MemoFits, ExtendedFits, JoinFits, Pending;
      groupId' := groupId;
      ghost var c0, h0, j0, z0 := chunks, height, join, frozen;
      var d: bv8, more := 0, true;
      ChunkLoopStart(c0, h0, j0, z0, lo, warp, origin);
      while more
        invariant Merges(lo, groupId')
        invariant ChunkLoop(c0, h0, j0, z0, chunks, height, join, frozen, warp, origin, d, more)
        decreases more, !d
      {
        ghost var c1, h1, j1, z1 := chunks, height, join, frozen;
        ChunkLoopReady(c0, h0, j0, z0, lo, c1, h1, j1, z1, warp, origin, d);
        groupId' := MergeSlot(warp, origin, d, groupId', lo);
        forall e { PendingNext(d, e); }
        if d == 0xFF {
          more := false;
        } else {
          d := d + 1;
        }
        ChunkLoopStep(c0, h0, j0, z0, lo, c1, h1, j1, z1, chunks, height, join, frozen, warp, origin,
                      if more then d - 1 else d, d, more);
      }
      ChunkLoopEnd(c0, h0, j0, z0, chunks, height, join, frozen, mergeRemap, mergeExtended, lo, groupId', warp, origin,
                   d);
      frozen := frozen + {origin};
    }

    /** One round of the loop of `merge_chunk`. */
    method MergeSlot(warp: nat, origin: nat, d: bv8, groupId: nat, ghost lo: nat) returns (groupId': nat)
      requires Merges(lo, groupId) && SlotReady(chunks, height, frozen, lo, warp, origin, d)
      modifies this`chunks, this`height, this`mergeExtended, this`mergeRemap, this`join, this`frozen
      ensures Merges(lo, groupId')
      ensures SlotStep(old(chunks), old(height), old(join), old(frozen), chunks, height, join, frozen, warp, origin, d)
      decreases height[origin], 1
    {
      hide Loose, SlotStep, MemoFits, ExtendedFits, JoinFits, Layered, Closed;
      groupId' := groupId;
      var warpValue, value := chunks[warp].At(d), chunks[origin].At(d);
      if warpValue == Group(0) {
        SlotEmpty(chunks, height, join, frozen, mergeRemap, mergeExtended, lo, groupId, warp, origin, d);
        frozen := frozen + Below(chunks, height, origin, d);
      } else if (warpValue, value) in mergeRemap {
        SlotKnown(chunks, height, join, frozen, mergeRemap, mergeExtended, lo, groupId, warp, origin, d);
        chunks := chunks[origin := chunks[origin].Put(d, mergeRemap[(warpValue, value)])];
      } else if value.Link? {
        groupId' := MergeLink(warp, origin, d, groupId, lo);
      } else if warpValue.Link? {
        groupId' := MergeNew(warp, origin, d, groupId, lo);
      } else {
        // the internal error of the source (an id from this merge) cannot happen
        assert value.id < mergeGroupId;
        SlotPair(chunks, height, join, frozen, mergeRemap, mergeExtended, lo, groupId, warp, origin, d, warpValue.id,
                 value.id);
        chunks := chunks[origin := chunks[origin].Put(d, Group(groupId))];
        mergeRemap := mergeRemap[(warpValue, value) := Group(groupId)];
        join := join[(warpValue.id, value.id) := groupId];
        groupId' := groupId + 1;
      }
    }

    /** The chunk that stands for warp id a at every digit. */
    method ExtendedChunk(a: nat, groupId: nat, ghost lo: nat, ghost k: nat) returns (w: nat)
      requires Merges(lo, groupId) && k < |chunks| && Loose(chunks, height, frozen, lo, k)
      modifies this`chunks, this`height, this`mergeExtended, this`frozen
      ensures Merges(lo, groupId) && Extends(old(height), height) && Loose(chunks, height, frozen, lo, k)
      ensures |chunks| >= old(|chunks|) && (forall x | 0 <= x < old(|chunks|) :: chunks[x] == old(chunks[x]))
      ensures old(frozen) <= frozen && (forall x | x in frozen :: x in old(frozen) || x >= old(|chunks|))
      ensures w in frozen && w < |chunks| && height[w] == 1 && chunks[w] == Filled(false, Group(a))
    {
      hide Loose, MemoFits, JoinFits, Layered, Closed;
      if a !in mergeExtended {
        ExtendReady(chunks, height, join, frozen, mergeRemap, mergeExtended, lo, groupId, a, k);
        mergeExtended := mergeExtended[a := |chunks|];
        frozen := frozen + {|chunks|};
        chunks, height := chunks + [Filled(false, Group(a))], height + [1];
      }
      w := mergeExtended[a];
    }

    /** The branches of `merge_chunk` in which the origin value is a chunk: it is merged in place. */
    method MergeLink(warp: nat, origin: nat, d: bv8, groupId: nat, ghost lo: nat) returns (groupId': nat)
      requires Merges(lo, groupId) && SlotReady(chunks, height, frozen, lo, warp, origin, d)
      requires chunks[origin].At(d).Link? && chunks[warp].At(d) != Group(0)
      requires (chunks[warp].At(d), chunks[origin].At(d)) !in mergeRemap
      modifies this`chunks, this`height, this`mergeExtended, this`mergeRemap, this`join, this`frozen
      ensures Merges(lo, groupId')
      ensures SlotStep(old(chunks), old(height), old(join), old(frozen), chunks, height, join, frozen, warp, origin, d)
      decreases height[origin], 0
    {
      hide Loose, SlotStep, MemoFits, ExtendedFits, JoinFits, Layered, Filled;
      ghost var c0, h0, j0, z0 := chunks, height, join, frozen;
      SlotValues(chunks, height, warp, d);
      SlotValues(chunks, height, origin, d);
      var warpValue, k := chunks[warp].At(d), chunks[origin].At(d).chunk;
      var w;
      match warpValue {
        case Link(x) =>
          assert Kid(ShapeOf(chunks), warp, d) == x;
          w := x;
        case Group(a) =>
          w := ExtendedChunk(a, groupId, lo, k);
      }
      ghost var c', h', z' := chunks, height, frozen;
      hide Closed;
      forall y: Digits | |y| + 1 >= h0[origin]
        ensures Lookup(c', h', w, y) == Den(c0, h0, warpValue, y)
      {
        if warpValue.Group? {
          FlatLookup(c', h', w, warpValue.id, y);
        }
      }
      groupId' := MergeChunk(w, k, groupId, lo);
      assert k in frozen by { assert Reaches(ShapeOf(c'), h', k, k); }
      SlotFromKid(c0, h0, j0, z0, lo, c', h', z', chunks, height, join, frozen, warp, w, origin, d, k);
      hide ChunkStep;
      MemoAdd(chunks, height, join, frozen, mergeRemap, mergeExtended, lo, groupId', warpValue, Link(k), Link(k));
      mergeRemap := mergeRemap[(warpValue, Link(k)) := Link(k)];
    }

    /** The branch of `merge_chunk` in which the warp value is a chunk and the origin value is not. */
    method MergeNew(warp: nat, origin: nat, d: bv8, groupId: nat, ghost lo: nat) returns (groupId': nat)
      requires Merges(lo, groupId) && SlotReady(chunks, height, frozen, lo, warp, origin, d)
      requires chunks[origin].At(d).Group? && chunks[warp].At(d).Link?
      requires (chunks[warp].At(d), chunks[origin].At(d)) !in mergeRemap
      modifies this`chunks, this`height, this`mergeExtended, this`mergeRemap, this`join, this`frozen
      ensures Merges(lo, groupId')
      ensures SlotStep(old(chunks), old(height), old(join), old(frozen), chunks, height, join, frozen, warp, origin, d)
      decreases height[origin], 0
    {
      hide Loose, MemoFits, ExtendedFits, JoinFits, Layered, SlotStep, ChunkStep, SlotReady, Closed;
      ghost var c0, h0, j0, z0 := chunks, height, join, frozen;
      SlotInside(chunks, height, frozen, lo, warp, origin, d);
      var w, b := chunks[warp].At(d).chunk, chunks[origin].At(d).id;
      NewOpens(chunks, height, join, frozen, mergeRemap, mergeExtended, lo, groupId, warp, origin, d, w, b);
      var newChunk := |chunks|;
      height := height + [height[w]];
      chunks := chunks[origin := chunks[origin].Put(d, Link(newChunk))] + [Filled(false, Group(b))];
      groupId' := MergeChunk(w, newChunk, groupId, lo);
      NewCloses(c0, h0, j0, z0, lo, chunks, height, join, frozen, mergeRemap, mergeExtended, groupId', warp, w, origin,
                d, b);
      mergeRemap := mergeRemap[(Link(w), Group(b)) := Link(newChunk)];
    }

    // ----- the run of merges ----------------------------------------------------------------

    /**
      `get_last_gapped_chunks_step`: the chunks reached from chunk c through the gap.  The mask is
      the gap followed by ones, so the recursion ends where the rest of the mask has no gap.
    */
    method LastChunks(addr: Digits, mask: Digits, last: set<nat>, c: nat, ghost gap: Digits,
                      ghost n: nat) returns (last': set<nat>)
      requires Formed() && c < |chunks| && n > 0 && mask == gap + Ones(n) && |addr| == |mask|
      requires forall t | 0 <= t < |gap| :: Leading(gap[t])
      requires gap != [] ==> gap[|gap| - 1] != 0xFF
      requires Filling(Form(), c, addr[..|gap|], gap)
      ensures forall o :: o in last' <==> o in last || LastAt(Form(), c, addr[..|gap|], gap, o)
      decreases |mask|
    {
      hide Filling, LastAt, Layered, Low, High, Between, Leading, Agree, Passed, Rooted, Contiguous;
      GapEnd(gap, n);
      if Contiguous(mask) {
        LastAtEnd(Form(), c, c);
        forall o { LastAtEnd(Form(), c, o); }
        return last + {c};
      }
      last' := last;
      ghost var s, first := Form(), addr[..|gap|];
      assert mask[0] == gap[0] && addr[0] == first[0];
      assert mask[1..] == gap[1..] + Ones(n) && addr[1..][..|gap[1..]|] == first[1..];
      var low, high := Low(addr[0], mask[0]), High(addr[0], mask[0]);
      PassedStart(addr[0], mask[0]);
      var prev: set<nat>, d, more := {}, low, true;
      while more
        invariant more ==> Between(low, d, high)
        invariant forall o :: o in last' <==> o in last || LastPassed(s, c, first, gap, low, high, d, more, o)
        invariant forall k | k in prev :: exists e :: Passed(low, high, d, more, e) && Kid(s, c, e) == k
        decreases more, !d
      {
        assert Agree(d, gap[0], first[0]) by { AgreeInterval(d, mask[0], addr[0]); }
        FillingStep(s, c, first, gap, d);
        SlotValues(chunks, height, c, d);
        var k := chunks[c].At(d).chunk;
        if k !in prev {
          last' := LastChunks(addr[1..], mask[1..], last', k, gap[1..], n);
          prev := prev + {k};
        }
        ghost var was := d;
        assert forall o ::
                 o in last'
                 <==> o in last || LastPassed(s, c, first, gap, low, high, d, true, o)
                      || LastBy(s, c, first, gap, d, o);
        if d == high {
          more := false;
        } else {
          d := d + 1;
        }
        PassedStep(low, high, was, d, more);
        forall o: nat { LastPassedStep(s, c, first, gap, low, high, was, d, more, o); }
      }
      PassedEnd(addr[0], mask[0], d);
      forall o { LastAtStep(s, c, first, gap, o); }
    }
  
    /** Merges a warp into one end of its gap. */
    method MergeEnd(i: nat, o: nat, groupId: nat, ghost c0: seq<Chunk>, ghost h0: seq<nat>,
                    ghost nets: iset<(nat, Net)>,
                    ghost lo: nat, ghost done: set<nat>) returns (groupId': nat)
      requires Run(c0, h0, roots, nets, warps, chunks, height, join, frozen, done) && WellFormed(c0, h0)
               && Rooted(h0, roots)
      requires IdsBelow(c0, h0, roots, lo) && Merges(lo, groupId)
      requires i < |warps| && o !in done && IsLast(ShapeOf(c0), warps[i], o)
      modifies this`chunks, this`height, this`mergeExtended, this`mergeRemap, this`join, this`frozen
      ensures Merges(lo, groupId')
      ensures Run(c0, h0, roots, nets, warps, chunks, height, join, frozen, done + {o})
    {
      hide Run, IsLast, IdsBelow, Loose, SameBelow, ChunkStep, MemoFits, ExtendedFits, JoinFits, Layered, WarpChunks;
      ghost var c1, h1, j1, z1 := chunks, height, join, frozen;
      EndReady(c0, h0, roots, nets, warps, lo, c1, h1, j1, z1, done, i, o);
      groupId' := MergeChunk(warps[i].chunk, o, groupId, lo);
      RunStep(c0, h0, roots, nets, warps, lo, c1, h1, j1, z1, chunks, height, join, frozen, done, i, o);
    }

    /** The loop of `merge` over the ends of one gap, in any order. */
    method MergeWarp(i: nat, groupId: nat, ghost c0: seq<Chunk>, ghost h0: seq<nat>, ghost nets: iset<(nat, Net)>,
                     ghost lo: nat, ghost done: set<nat>) returns (groupId': nat, last: set<nat>, ghost done': set<nat>)
      requires Run(c0, h0, roots, nets, warps, chunks, height, join, frozen, done) && WellFormed(c0, h0)
               && Rooted(h0, roots)
      requires IdsBelow(c0, h0, roots, lo) && Merges(lo, groupId) && i < |warps| && Rooted(height, roots)
      requires forall o | o in done :: !IsLast(ShapeOf(c0), warps[i], o)
      modifies this`chunks, this`height, this`mergeExtended, this`mergeRemap, this`join, this`frozen, this`mergeGroupId
      ensures Merges(lo, groupId') && done' == done + last
      ensures forall o: nat :: o in last <==> IsLast(ShapeOf(c0), warps[i], o)
      ensures Run(c0, h0, roots, nets, warps, chunks, height, join, frozen, done')
    {
      hide Run, Prepared, MergeRun, AllLast, IsLast, IdsBelow, Merging, Layered, WarpsFit, WarpFits, WarpChunks;
      hide LastAt, Filling, Leading;
      RunOpens(c0, h0, roots, nets, warps, chunks, height, join, frozen, done);
      PreparedParts(c0, h0, roots, nets, warps);
      WarpParts(h0, roots, nets, warps, i);
      EndsKept(c0, h0, roots, nets, warps, WarpChunks(c0, h0, warps), chunks, height, join, frozen, done, i);
      groupId', done' := groupId, done;
      var addr, gap := warps[i].region.addr, warps[i].region.mask[..warps[i].level];
      var n := |addr| - |gap|;
      last := LastChunks(addr, gap + Ones(n), {}, 0, gap, n);
      var todo := last;
      while todo != {}
        invariant todo <= last && done' == done + (last - todo)
        invariant Merges(lo, groupId') && Run(c0, h0, roots, nets, warps, chunks, height, join, frozen, done')
      {
        var o :| o in todo;
        MergingBound(chunks, height, join, frozen, mergeRemap, mergeExtended, lo, groupId');
        mergeGroupId := groupId';
        groupId' := MergeEnd(i, o, groupId', c0, h0, nets, lo, done');
        todo, done' := todo - {o}, done' + {o};
        assert done' == done + (last - todo);
      }
    }

    /** `merge`: every address of every gapped prefix gets an id of its own pair of ids. */
    method Merge(groupId: nat, ghost nets: iset<(nat, Net)>)
      returns (groupId': nat, ghost done: set<nat>)
      requires Prepared(chunks, height, roots, nets, warps) && IdsBelow(chunks, height, roots, groupId)
      requires mergeExtended == map[] && mergeRemap == map[]
      modifies this`chunks, this`height, this`mergeExtended, this`mergeRemap, this`join, this`frozen, this`mergeGroupId,
               this`multirefs
      ensures Run(old(chunks), old(height), roots, nets, warps, chunks, height, join, frozen, done)
      ensures JoinFits(join, groupId, groupId')
      ensures |multirefs| == |warps|
      ensures forall i, o: nat | 0 <= i < |warps| :: o in multirefs[i] <==> IsLast(ShapeOf(old(chunks)), warps[i], o)
      ensures forall i, o: nat | 0 <= i < |warps| && o in multirefs[i] :: o in done
    {
      hide Run, Prepared, IsLast, IdsBelow, Merging, Layered, WarpsFit, WarpChunks, JoinFits;
      ghost var c0, h0 := chunks, height;
      RunStart(c0, h0, roots, nets, warps, groupId);
      PreparedParts(c0, h0, roots, nets, warps);
      groupId', multirefs, done := groupId, [], {};
      join, frozen, mergeGroupId := map[], WarpChunks(chunks, height, warps), groupId;
      while |multirefs| < |warps|
        invariant |multirefs| <= |warps|
        invariant Merges(groupId, groupId') && Run(c0, h0, roots, nets, warps, chunks, height, join, frozen, done)
        invariant forall i, o: nat | 0 <= i < |multirefs| :: o in multirefs[i] <==> IsLast(ShapeOf(c0), warps[i], o)
        invariant forall i, o: nat | 0 <= i < |multirefs| && o in multirefs[i] :: o in done
        invariant forall o | o in done :: exists i :: 0 <= i < |multirefs| && IsLast(ShapeOf(c0), warps[i], o)
      {
        RunOpens(c0, h0, roots, nets, warps, chunks, height, join, frozen, done);
        forall o | o in done
          ensures !IsLast(ShapeOf(c0), warps[|multirefs|], o)
        {
          var i :| 0 <= i < |multirefs| && IsLast(ShapeOf(c0), warps[i], o);
          if IsLast(ShapeOf(c0), warps[|multirefs|], o) {
            EndFits(c0, h0, roots, nets, warps, i, o);
            LastApart(c0, h0, roots, nets, warps, i, o, |multirefs|, o);
          }
        }
        var last;
        groupId', last, done := MergeWarp(|multirefs|, groupId', c0, h0, nets, groupId, done);
        multirefs := multirefs + [last];
      }
      MergingBound(chunks, height, join, frozen, mergeRemap, mergeExtended, groupId, groupId');
    }
  
    // ----- prepare --------------------------------------------------------------------------

    /** The loop of `prepare_simple_step`: the slots that do not lead to a private chunk get a new shared one. */
    method LinkRange(addr: bv8, mask: bv8, c: nat)
      requires Sized(chunks) && c < |chunks| && Leading(mask)
      requires forall d: bv8 | Between(Low(addr, mask), d, High(addr, mask)) && chunks[c].At(d).Link? ::
                 chunks[c].At(d).chunk < |chunks| && chunks[chunks[c].At(d).chunk].multirefs
      modifies this`chunks
      ensures Grafted(old(chunks), chunks, c, Low(addr, mask), High(addr, mask), 1)
    {
      hide Leading, Low, High, Between, Passed, LinkedTo;
      var low, high := Low(addr, mask), High(addr, mask);
      ghost var was := chunks;
      var newChunk := |chunks|;
      chunks := chunks + [Filled(true, Group(0))];
      PassedStart(addr, mask);
      LinkStart(was, c, low, high);
      var d, more := low, true;
      while more
        invariant more ==> Between(low, d, high)
        invariant LinkedTo(was, chunks, c, low, high, d, more)
        decreases more, !d
      {
        LinkHere(was, chunks, c, low, high, d);
        var value := chunks[c].At(d);
        if value.Group? || chunks[value.chunk].multirefs {
          LinkMore(was, chunks, c, low, high, d);
          chunks := chunks[c := chunks[c].Put(d, Link(newChunk))];
        }
        ghost var at := d;
        if d == high {
          more := false;
        } else {
          d := d + 1;
        }
        PassedStep(low, high, at, d, more);
      }
      LinkEnd(was, chunks, c, low, high, d);
    }

    /**
      The part of `prepare_simple_step` inside the gap: slots of chunk c are led into a new shared
      chunk, and so on until the gap ends.  (The same part of `prepare_gapped_step` meets no
      chunks, so its error is not reached.)
    */
    method Graft(addr: Digits, mask: Digits, warpMask: Digits, c: nat, ghost gap: Digits, ghost n: nat)
      requires Sized(chunks) && c < |chunks| && n > 0 && warpMask == gap + Ones(n) && gap != []
               && gap[|gap| - 1] != 0xFF
      requires |addr| == |mask| >= |gap| && Leading(mask[0]) && forall t | 0 < t < |gap| :: mask[t] == 0
      requires forall d: bv8 | Between(Low(addr[0], mask[0]), d, High(addr[0], mask[0])) && chunks[c].At(d).Link? ::
                 chunks[c].At(d).chunk < |chunks| && chunks[chunks[c].At(d).chunk].multirefs
      modifies this`chunks
      ensures Grafted(old(chunks), chunks, c, Low(addr[0], mask[0]), High(addr[0], mask[0]), |gap|)
      decreases |gap|
    {
      hide Leading, Low, High, Between, Passed, Contiguous;
      ghost var c0 := chunks;
      var newChunk := |chunks|;
      LinkRange(addr[0], mask[0], c);
      ghost var c1 := chunks;
      assert warpMask[1..] == gap[1..] + Ones(n);
      GapEnd(gap[1..], n);
      if !Contiguous(warpMask[1..]) {
        assert c1[|c0|] == ChainChunk(|c1|, |c0|);
        LeadingEnds();
        Graft(addr[1..], mask[1..], warpMask[1..], newChunk, gap[1..], n);
        forall d { FullRange(addr[1], d); }
        GraftLonger(c0, c1, chunks, c, Low(addr[0], mask[0]), High(addr[0], mask[0]), Low(addr[1], 0), High(addr[1], 0),
                    |gap| - 1);
      }
    }
  
    /** `prepare_gapped_step`: leads the region of a gapped prefix into a chain of shared chunks. */
    method GappedStep(addr: Digits, mask: Digits, c: nat, ghost nets: iset<(nat, Net)>, ghost w: Warp, ghost q: Digits,
                      ghost h: nat)
      requires Staged(chunks, height, roots, nets, warps, iset{w.region}) && GapsFilled(ShapeOf(chunks), warps)
      requires Regions(warps, h) && IsRegion(w.region, w.level, h) && ApartFrom(warps, w.region)
               && Comparable(nets, w.region)
      requires FullTo(w.region, q) && |q| < w.level && addr == w.region.addr[|q|..]
      requires mask == w.region.mask[|q|..w.level] + Ones(h - w.level)
      requires c < |chunks| && Walk(ShapeOf(chunks), 0, q) == Some(c) && !chunks[c].multirefs && height[c] + |q| == h
      modifies this`chunks, this`height
      ensures Staged(chunks, height, roots, nets + iset{(0, w.region)}, warps + [w], iset{})
      ensures Sized(chunks) && GapsFilled(ShapeOf(chunks), warps + [w]) && Extends(old(height), height)
      decreases |addr|
    {
      hide *;
      ghost var n := w.region;
      StageParts(chunks, height, roots, nets, warps, iset{n});
      EachSized(chunks);
      RegionPath(n, w.level, h, q);
      RegionTail(n, w.level, h, q);
      ghost var gap := n.mask[|q|..w.level];
      if mask[0] == 0xFF {
        var d := addr[0];
        FullStep(n, q);
        ChildWalk(chunks, q, c, d);
        var k;
        if chunks[c].At(d).Group? {
          PrivateNow(warps, iset{n}, n, q + [d]);
          StageHang(chunks, height, roots, nets, warps, iset{n}, c, q, d);
          k := |chunks|;
          height := HangHeight(height, c);
          chunks := Hang(chunks, c, d);
        } else {
          PathPrivate(ShapeOf(chunks), Flags(chunks), roots, warps, n, w.level, h, q + [d]);
          WalkExact(ShapeOf(chunks), height, 0, q);
          WalkExact(ShapeOf(chunks), height, 0, q + [d]);
          ExtendsSame(height);
          k := chunks[c].At(d).chunk;
        }
        ghost var was := height;
        GappedStep(addr[1..], mask[1..], k, nets, w, q + [d], h);
        ExtendsTransitive(old(height), was, height);
      } else {
        GappedChildren(chunks, Flags(chunks), roots, warps, n, w.level, h, c, q);
        ghost var was := chunks;
        Graft(addr, mask, mask, c, gap, h - w.level);
        StageRegion(was, height, roots, nets, warps, w, chunks, c, q, h);
        GraftRooted(height, roots, c, w.level - |q|);
        height := GraftHeight(height, c, w.level - |q|);
      }
    }
  
    /** `prepare_simple_step`: a prefix that ends inside a gap gets chunks of its own. */
    method SimpleStep(addr: Digits, mask: Digits, warpMask: Digits, c: nat,
                      ghost nets: iset<(nat, Net)>, ghost seen: iset<Net>, ghost i: nat, ghost n: Net, ghost q: Digits,
                          ghost h: nat)
      requires Preparing(chunks, height, roots, nets, warps, seen, i, n, h)
      requires FullTo(n, q) && |q| <= warps[i].level < h && addr == n.addr[|q|..] && mask == n.mask[|q|..]
      requires |warps[i].region.mask| == h
               && warpMask == warps[i].region.mask[|q|..warps[i].level] + Ones(h - warps[i].level)
      requires c < |chunks| && c < |height| && Walk(ShapeOf(chunks), 0, q) == Some(c) && !chunks[c].multirefs
               && height[c] + |q| == h
      modifies this`chunks, this`height
      ensures Staged(chunks, height, roots, nets + iset{(0, n)}, warps, seen + iset{n})
      ensures Sized(chunks) && GapsFilled(ShapeOf(chunks), warps) && Extends(old(height), height)
      decreases |addr|
    {
      hide *;
      PreparingParts(chunks, height, roots, nets, warps, seen, i, n, h);
      EachSized(chunks);
      ghost var w := warps[i];
      ghost var gap := w.region.mask[|q|..w.level];
      RegionEnd(w.region, w.level, h, q);
      GapEnd(gap, h - w.level);
      if Contiguous(warpMask) {
        ExtendsSame(height);
        StageEnd(chunks, height, roots, nets, warps, seen, i, n, c, q, h);
      } else if mask[0] == 0xFF {
        var d := addr[0];
        SimpleChild(chunks, height, roots, nets, warps, seen, i, n, h, c, q);
        var k := chunks[c].At(d).chunk;
        ghost var was, were := chunks, height;
        if chunks[k].multirefs {
          StageHang(chunks, height, roots, nets, warps, seen + iset{n}, c, q, d);
          k := |chunks|;
          height := HangHeight(height, c);
          chunks := Hang(chunks, c, d);
        } else {
          ExtendsSame(height);
        }
        PreparingFrom(was, were, chunks, height, roots, nets, warps, seen, i, n, h);
        ghost var now := height;
        SimpleStep(addr[1..], mask[1..], warpMask[1..], k, nets, seen, i, n, q + [d], h);
        ExtendsTransitive(were, now, height);
      } else {
        SimpleChildren(chunks, height, roots, nets, warps, seen, i, n, h, c, q);
        SimpleFrom(n, q, h);
        ghost var was := chunks;
        Graft(addr, mask, warpMask, c, gap, h - w.level);
        StageSimple(was, height, roots, nets, warps, seen, i, n, chunks, c, q, h);
        ghost var m := w.level - |q|;
        StageParts(was, height, roots, nets, warps, seen + iset{n});
        GraftRooted(height, roots, c, m);
        height := GraftHeight(height, c, m);
      }
    }
  
    /** The warps and the recorded masks of the gapped prefixes prepared so far. */
    ghost predicate Placing(h: nat)
      reads this
    {
      && Stage(chunks, height, roots, warps, iset{}, h) && WarpsNormal(warps, h) && InterFits(warps, intersections, h)
      && NetOrder.Sized(prefixes, h) && NetOrder.GapSorted(prefixes, h) && InterListed(intersections, prefixes, h)
    }

    /** `collect`: the prefix is kept in the order of the gaps. */
    method Collect(n: Net, ghost h: nat)
      requires Placing(h) && |n.addr| == |n.mask| == h
      modifies this`prefixes
      ensures Placing(h) && forall m :: m in prefixes <==> m in old(prefixes) || m == n
    {
      hide Stage, WarpsNormal, InterFits, NetOrder.GapSorted, RegionOf, WarpKey;
      prefixes := NetOrder.InsertByGap(prefixes, n, h);
    }

    /** `prepare_gapped`: false stands for the errors of the source. */
    method PrepareGapped(n: Net, ghost h: nat) returns (ok: bool)
      requires Placing(h) && |n.addr| == |n.mask| == h && h > 0 && !Contiguous(n.mask)
      requires Supported(n) ==> WiderAll(warps, n)
      modifies this`chunks, this`height, this`roots, this`warps, this`intersections, this`prefixes
      ensures forall i | 0 <= i < |old(warps)| :: |old(warps)[i].region.addr| == |old(warps)[i].region.mask| == h
      ensures ok <==> Agreeable(old(warps), n, h)
      ensures Placing(h) && Keeps(old(intersections), intersections)
      ensures ok ==> Placed(warps, intersections, n, h) && (!HasWarp(warps, n) ==> RegionOf(n) in prefixes)
      ensures warps == old(warps)
              || (|warps| == |old(warps)| + 1 && old(warps) <= warps && WarpOf(warps[|old(warps)|], n))
      ensures forall m | m in old(prefixes) :: m in prefixes
      ensures forall m | m in prefixes :: m in old(prefixes) || (Contiguous(m.mask) && Normal(m))
    {
      hide Stage, WarpsNormal, InterFits, InterListed, NetOrder.GapSorted, Contiguous, Normal, RegionOf, GapLevel,
           Overlaps, Supported, Placed;
      hide WarpOf, HasWarp, Agreeable, ComposedBy, WiderAll, Staged, GapsFilled, Knows, RegionsApart, SeenFits,
           WarpRoots, Regions;
      WarpsSized(chunks, height, roots, warps, iset{}, h);
      AgreeableIs(warps, n, h);
      if !Supported(n) {
        return false;
      }
      var i := FindWarp(n);
      if i.Some? {
        PlacedOwn(warps, intersections, n, h);
        return true;
      }
      var region, level := RegionOf(n), GapLevel(n);
      WarpMaskIs(n, h);
      RegionSizes(region, level, h);
      StageOpens(chunks, height, roots, warps, iset{}, h);
      var j := 0;
      while j < |warps|
        invariant j <= |warps|
        invariant forall j' | 0 <= j' < j :: !Overlaps(region, warps[j'].region)
      {
        if Overlaps(region, warps[j].region) {
          AgreeComposed(warps, n, j, h);
          if warps[j].level != level {
            return false;
          }
          Compose(n, j, h);
          return true;
        }
        j := j + 1;
      }
      AddWarp(n, h);
      ok := true;
    }

    /** `prepare_gapped` for a network in the region of an earlier warp: its region becomes a simple prefix. */
    method Compose(n: Net, j: nat, ghost h: nat)
      requires Placing(h) && j < |warps| && ComposedBy(warps[j], n, h) && !Contiguous(n.mask)
      modifies this`intersections, this`prefixes
      ensures Placing(h) && Keeps(old(intersections), intersections)
      ensures Placed(warps, intersections, n, h) && RegionOf(n) in prefixes
      ensures forall m | m in old(prefixes) :: m in prefixes
      ensures forall m | m in prefixes :: m in old(prefixes) || (Contiguous(m.mask) && Normal(m))
    {
      hide Stage, WarpsNormal, InterFits, InterListed, NetOrder.GapSorted, Contiguous, Normal, RegionOf, WarpKey,
           WarpMask, ComposedBy, Placed, Supported;
      ComposedSizes(warps[j], n, h);
      RegionContiguous(n);
      RegionNormal(n);
      var key := WarpKey(n);
      if key !in intersections {
        InterAdd(warps, intersections, n, j, h);
        ghost var was, listed := intersections, prefixes;
        prefixes := NetOrder.InsertByGap(prefixes, RegionOf(n), h);
        intersections := intersections[key := WarpMask(warps[j], |n.mask|)];
        ListedAdd(was, listed, prefixes, n, WarpMask(warps[j], |n.mask|), h);
      }
      PlacedComposed(warps, intersections, n, h);
      assert RegionOf(n) in prefixes by { ListedAt(intersections, prefixes, n, h); }
    }

    /** `prepare_gapped` for a network apart from all warps. */
    method AddWarp(n: Net, ghost h: nat)
      requires Placing(h) && |n.addr| == |n.mask| == h && h > 0 && !Contiguous(n.mask) && Supported(n)
      requires forall j | 0 <= j < |warps| ::
                 |warps[j].region.addr| == |warps[j].region.mask| == h && !Overlaps(RegionOf(n), warps[j].region)
      modifies this`chunks, this`height, this`roots, this`warps
      ensures Placing(h) && HasWarp(warps, n) && Placed(warps, intersections, n, h)
      ensures |warps| == |old(warps)| + 1 && old(warps) <= warps && WarpOf(warps[|old(warps)|], n)
    {
      hide Stage, WarpsNormal, InterFits, InterListed, NetOrder.GapSorted, Contiguous, Normal, RegionOf, GapLevel,
           Overlaps, Supported, Placed;
      hide WarpOf, HasWarp, Staged, GapsFilled, Knows, RegionsApart, SeenFits, WarpRoots, Regions, FillTail, InsertNets,
           ApartFrom, Filled, IsRegion;
      var region, level := RegionOf(n), GapLevel(n);
      WarpMaskIs(n, h);
      RegionSizes(region, level, h);
      WarpsSized(chunks, height, roots, warps, iset{}, h);
      ApartAll(warps, region, h);
      GappedReady(chunks, height, roots, warps, region, level, h);
      StageOpens(chunks, height, roots, warps, iset{}, h);
      ghost var was, w0 := height, Warp(region, level, 0);
      GappedStep(region.addr, FillTail(n.mask), 0, InsertNets(warps, iset{}), w0, [], h);
      var w := Warp(region, level, |chunks|);
      GappedDone(chunks, height, roots, warps, w0, w, h) by {
        GappedSizes(chunks, was, height, roots, InsertNets(warps, iset{}), warps, w0, h);
      }
      NormalMore(warps, w, n, h);
      InterMore(warps, warps + [w], intersections, h);
      roots := roots + {|chunks|};
      height := height + [h - level];
      chunks := chunks + [Filled(false, Group(0))];
      warps := warps + [w];
      WarpIs(n, w);
      HasWarpAt(warps, n, |warps| - 1);
      PlacedOwn(warps, intersections, n, h);
    }

    /** `prepare_simple`: prepares the prefix in the gap in which it ends, if there is one. */
    method PrepareSimple(n: Net, ghost seen: iset<Net>, ghost h: nat) returns (ghost seen': iset<Net>)
      requires Stage(chunks, height, roots, warps, seen, h) && |n.addr| == |n.mask| == h > 0
      requires LeadingOnes(n.mask) && TreePrepare.After(seen, n)
      modifies this`chunks, this`height
      ensures Stage(chunks, height, roots, warps, seen', h) && (seen' == seen || seen' == seen + iset{n})
      ensures Handled(InsertNets(warps, seen'), warps, n)
    {
      hide *;
      seen' := seen;
      ghost var at, done := 0, false;
      var i := 0;
      WarpsSized(chunks, height, roots, warps, seen, h);
      while i < |warps|
        invariant i <= |warps| && Stage(chunks, height, roots, warps, seen', h)
        invariant !done ==> seen' == seen && forall j | 0 <= j < i :: Harmless(n, warps[j])
        invariant done ==> seen' == seen + iset{n} && at < i && Inside(n, warps[at].region)
        invariant done ==> Handled(InsertNets(warps, seen'), warps, n)
      {
        StageOpens(chunks, height, roots, warps, seen', h);
        KnowsRegion(InsertNets(warps, seen'), warps, seen', h, i);
        EndsInside(n, warps[i], h);
        if EndsInGap(n, warps[i]) {
          if done {
            KnowsRegion(InsertNets(warps, seen'), warps, seen', h, at);
            RegionSizes(warps[at].region, warps[at].level, h);
            OneRegionInside(warps, at, i, n, h);
          }
          SimpleReady(chunks, height, roots, warps, seen, i, n, h);
          ghost var was := height;
          var w := warps[i];
          SimpleStep(n.addr, n.mask, w.region.mask[..w.level] + Ones(|n.mask| - w.level), 0,
                     InsertNets(warps, seen), seen, i, n, [], h);
          SimpleDone(chunks, was, height, roots, warps, seen, i, n, h);
          seen', at, done := seen + iset{n}, i, true;
        }
        i := i + 1;
      }
      if !done {
        HandledIs(InsertNets(warps, seen'), warps, n);
      }
    }
  
    /**
      `prepare`: first the gapped prefixes, the wider gaps first, then the simple ones and the regions of
      composed prefixes in the order in which they are kept.  It succeeds exactly when the gapped
      prefixes are supported and the last parts of overlapping ones start together.
    */
    method Prepare(ghost h: nat) returns (ok: bool)
      requires Placing(h) && warps == [] && intersections == map[] && h > 0 && forall n | n in prefixes :: Normal(n)
      modifies this`chunks, this`height, this`roots, this`warps, this`intersections, this`prefixes
      ensures AllGapped(NetOrder.GapsOf(old(prefixes)), h)
      ensures ok <==> NoClash(NetOrder.GapsOf(old(prefixes)), |NetOrder.GapsOf(old(prefixes))|, h)
      ensures ok ==> Prepared(chunks, height, roots, InsertNets(warps, SimpleOf(prefixes)), warps) && Blank(chunks)
      ensures ok ==>
                |height| > 0 && height[0] == h && RegionsApart(warps) && forall m | m in old(prefixes) :: m in prefixes
      ensures ok ==>
                PlacedTo(warps, intersections, prefixes, NetOrder.GapsOf(old(prefixes)),
                         |NetOrder.GapsOf(old(prefixes))|, h)
    {
      hide Stage, WarpsNormal, InterFits, InterListed, NetOrder.GapSorted, Contiguous, Normal, Prepared, Blank,
           InsertNets, PlacedTo, NoClash;
      NetOrder.GapsAre(prefixes, h);
      var gapped := NetOrder.GapsOf(prefixes);
      GapsFirst(gapped, h);
      ok := PrepareAllGapped(gapped, h);
      if ok {
        KeptInOrder(prefixes, h);
        PrepareAllSimple(prefixes, h);
      }
    }

    method PrepareAllGapped(gapped: seq<Net>, ghost h: nat) returns (ok: bool)
      requires Placing(h) && warps == [] && intersections == map[] && AllGapped(gapped, h) && WideFirst(gapped)
      requires forall n | n in prefixes :: Normal(n)
      modifies this`chunks, this`height, this`roots, this`warps, this`intersections, this`prefixes
      ensures ok <==> NoClash(gapped, |gapped|, h)
      ensures Placing(h) && forall n | n in prefixes :: Normal(n)
      ensures ok ==> PlacedTo(warps, intersections, prefixes, gapped, |gapped|, h)
      ensures forall m | m in old(prefixes) :: m in prefixes
    {
      hide Stage, WarpsNormal, InterFits, InterListed, NetOrder.GapSorted, Contiguous, Normal, PlacedTo, NoClash,
           WideFirst, Supported, Placed;
      hide HasWarp, WarpOf, RegionOf, Agreeable, Keeps, WiderAll, AllPlaced, WarpsFrom, RegionsApart, GapsFilled,
           Staged, Knows, SeenFits, WarpRoots;
      ClashNone(gapped, prefixes, h);
      for k := 0 to |gapped|
        invariant Placing(h) && forall n | n in prefixes :: Normal(n)
        invariant NoClash(gapped, k, h) && PlacedTo(warps, intersections, prefixes, gapped, k, h)
        invariant forall m | m in old(prefixes) :: m in prefixes
      {
        ghost var was, inter, listed := warps, intersections, prefixes;
        PlacedParts(warps, intersections, prefixes, gapped, k, h);
        StageOpens(chunks, height, roots, warps, iset{}, h);
        ClashStep(warps, intersections, gapped, k, h);
        WideBefore(warps, gapped, k, h);
        ok := PrepareGapped(gapped[k], h);
        if !ok {
          if NoClash(gapped, |gapped|, h) {
            ClashLess(gapped, k + 1, |gapped|, h);
          }
          return;
        }
        PlacedStep(was, warps, inter, intersections, listed, prefixes, gapped, k, h);
      }
      ok := true;
    }

    method PrepareAllSimple(prefixes: seq<Net>, ghost h: nat)
      requires Stage(chunks, height, roots, warps, iset{}, h) && Sizes(prefixes, h) && InOrder(prefixes)
      modifies this`chunks, this`height
      ensures Prepared(chunks, height, roots, InsertNets(warps, SimpleOf(prefixes)), warps) && Blank(chunks)
      ensures |height| > 0 && height[0] == h && RegionsApart(warps)
    {
      hide RegionsApart, Knows, SeenFits, WarpRoots, Staged, GapsFilled;
      hide Stage, Contiguous, Handled, InsertNets, Prepared, Blank, TreePrepare.After, LeadingOnes, InOrder;
      ghost var seen: iset<Net> := iset{};
      for k := 0 to |prefixes|
        invariant Stage(chunks, height, roots, warps, seen, h) && SimpleDoneTo(prefixes, k, warps, seen)
      {
        if Contiguous(prefixes[k].mask) {
          SimpleNext(prefixes, k, warps, seen, h);
          ghost var was := seen;
          seen := PrepareSimple(prefixes[k], seen, h);
          SimpleDoneStep(prefixes, k, warps, was, seen);
        }
      }
      StageOpens(chunks, height, roots, warps, seen, h);
      SimpleAll(chunks, height, roots, prefixes, warps, seen, h);
    }
  
    // ----- get ------------------------------------------------------------------------------

    /** `get_group_id_next`: the ids below slot d of chunk c; what lies below `prev` is known already. */
    method GetNext(c: nat, d: bv8, groups: set<nat>, prev: set<nat>) returns (groups': set<nat>, prev': set<nat>)
      requires WellFormed(chunks, height) && c < |chunks| && AllHeld(chunks, height, prev, groups)
      ensures forall g :: g in groups' <==> g in groups || SlotHolds(chunks, height, c, d, g)
      ensures AllHeld(chunks, height, prev', groups')
      decreases height[c], 0
    {
      hide Holds, Layered;
      groups', prev' := groups, prev;
      SlotValues(chunks, height, c, d);
      match chunks[c].At(d) {
        case Group(g) =>
          groups' := groups + {g};
        case Link(k) =>
          if k !in prev {
            groups', prev' := GetSlots(k, 0, 0, groups, prev);
            forall g: nat
              ensures g in groups' <==> g in groups || Holds(chunks, height, k, g)
            {
              HoldsSlot(chunks, height, k, g);
              assert forall e :: Agree(e, 0, 0) by { forall e: bv8 { AgreeEnds(e, 0); } }
            }
            prev' := prev' + {k};
          }
      }
    }

    /** The loops of `get_group_id_next` and of the last step of `get_step`. */
    method GetSlots(c: nat, addr: bv8, mask: bv8, groups: set<nat>, prev: set<nat>) returns (groups': set<nat>,
          prev': set<nat>)
      requires WellFormed(chunks, height) && c < |chunks| && AllHeld(chunks, height, prev, groups) && Leading(mask)
      ensures forall g ::
                g in groups' <==> g in groups || exists e :: Agree(e, mask, addr) && SlotHolds(chunks, height, c, e, g)
      ensures AllHeld(chunks, height, prev', groups')
      decreases height[c], 1
    {
      hide Holds, Layered, Leading, Low, High, Between, Passed, Agree, SlotHolds, AllHeld;
      groups', prev' := groups, prev;
      var low, high := Low(addr, mask), High(addr, mask);
      PassedStart(addr, mask);
      var d, more := low, true;
      while more
        invariant more ==> Between(low, d, high)
        invariant forall g :: g in groups' <==> g in groups || SlotsHold(chunks, height, c, low, high, d, more, g)
        invariant AllHeld(chunks, height, prev', groups')
        decreases more, !d
      {
        groups', prev' := GetNext(c, d, groups', prev');
        ghost var at := d;
        if d == high {
          more := false;
        } else {
          d := d + 1;
        }
        PassedStep(low, high, at, d, more);
        forall g: nat { SlotsHoldStep(chunks, height, c, low, high, at, d, more, g); }
      }
      PassedEnd(addr, mask, d);
    }

    /** `get_step` for a mask without a gap: the ids of the addresses of the network below chunk c. */
    method GetStep(addr: Digits, mask: Digits, groups: set<nat>, c: nat) returns (groups': set<nat>)
      requires WellFormed(chunks, height) && c < |chunks| && height[c] <= |mask| == |addr| && Contiguous(mask)
      ensures forall g :: g in groups' <==> g in groups || Seen(chunks, height, c, addr, mask, g)
      decreases |mask|
    {
      hide Holds, Layered, Leading, Agree, SlotHolds, Seen;
      if AllZero(mask[1..]) {
        var prev;
        groups', prev := GetSlots(c, addr[0], mask[0], groups, {});
        forall g: nat { SeenLast(chunks, height, c, addr, mask, g); }
      } else {
        forall g: nat { SeenNext(chunks, height, c, addr, mask, g); }
        SlotValues(chunks, height, c, addr[0]);
        match chunks[c].At(addr[0]) {
          case Group(g) =>
            groups' := groups + {g};
          case Link(k) =>
            groups' := GetStep(addr[1..], mask[1..], groups, k);
        }
      }
    }

    /** The tree after the merge: the multirefs chunks are the ends of the gaps, and the saved results are right. */
    ghost predicate Readable(h: nat)
      reads this
    {
      && WellFormed(chunks, height) && 0 < |chunks| && height[0] == h && |multirefs| == |warps|
      && (forall i | 0 <= i < |warps| :: EndsFit(chunks, height, warps[i], multirefs[i], h))
      && (forall n | n in saved :: |n.addr| == |n.mask| == h && SavedFits(n, saved[n]))
    }

    ghost predicate SavedFits(n: Net, groups: set<nat>)
      reads this
      requires WellFormed(chunks, height) && 0 < |chunks| && height[0] == |n.addr| == |n.mask|
    {
      forall g :: g in groups <==> PieceSeen(chunks, height, warps, intersections, n, g)
    }

    /** `get` for a gapped network: the last part of the network below every end of the gap. */
    method GetGapped(n: Net, i: nat, ghost h: nat) returns (groups: set<nat>)
      requires Readable(h) && |n.addr| == |n.mask| == h > 0 && i < |warps| && !Contiguous(n.mask) && Supported(n)
               && WarpOf(warps[i], n)
      ensures forall g :: g in groups <==> Seen(chunks, height, 0, n.addr, n.mask, g)
    {
      hide Seen, Layered, WarpOf, Supported, EndsFit;
      groups := {};
      ghost var w := warps[i];
      var l := warps[i].level;
      assert EndsFit(chunks, height, w, multirefs[i], h);
      forall o | o in multirefs[i]
        ensures o < |chunks| && height[o] <= h - l
      {
        EndHeight(chunks, height, w, multirefs[i], h, o);
      }
      TailCovers(n, w, h);
      var todo := multirefs[i];
      while todo != {}
        invariant todo <= multirefs[i]
        invariant forall g ::
                    g in groups <==> SeenBelow(chunks, height, multirefs[i] - todo, n.addr[l..], n.mask[l..], g)
      {
        var o :| o in todo;
        groups := GetStep(n.addr[l..], n.mask[l..], groups, o);
        ghost var done := multirefs[i] - todo;
        todo := todo - {o};
        assert multirefs[i] - todo == done + {o};
        forall g: nat { SeenBelowStep(chunks, height, done, o, n.addr[l..], n.mask[l..], g); }
      }
      assert multirefs[i] - todo == multirefs[i];
      forall g: nat { GappedSeen(chunks, height, w, multirefs[i], h, n, g); }
    }

    /** `get`: adds the ids of all addresses of the network, or those that both pieces of a composed network have. */
    method Get(n: Net, groups: set<nat>, ghost h: nat) returns (groups': set<nat>)
      requires Readable(h) && h > 0 && Readied(warps, intersections, n, h)
      modifies this`saved
      ensures Readable(h)
      ensures forall g :: g in groups' <==> g in groups || PieceSeen(chunks, height, warps, intersections, n, g)
      decreases if Contiguous(n.mask) || HasWarp(warps, n) then 0 else 1
    {
      hide Seen, Layered, WarpOf, HasWarp, Supported, EndsFit, Contiguous, Placed, RegionOf, WarpKey, WideOf;
      if n !in saved {
        var found: set<nat>;
        if Contiguous(n.mask) {
          found := GetStep(n.addr, n.mask, {}, 0);
        } else {
          var i := FindWarp(n);
          if i.Some? {
            PlacedSupported(warps, intersections, n, h);
            found := GetGapped(n, i.value, h);
          } else {
            found := GetComposed(n, h);
          }
        }
        saved := saved[n := found];
      }
      groups' := groups + saved[n];
    }

    /** `get` for a composed network. */
    method GetComposed(n: Net, ghost h: nat) returns (groups: set<nat>)
      requires Readable(h) && h > 0 && Readied(warps, intersections, n, h) && !Contiguous(n.mask) && !HasWarp(warps, n)
      modifies this`saved
      ensures Readable(h)
      ensures forall g :: g in groups <==> PieceSeen(chunks, height, warps, intersections, n, g)
      decreases 1, 0
    {
      hide Seen, Layered, WarpOf, HasWarp, Supported, EndsFit, Contiguous, Placed, RegionOf, WarpKey, WideOf;
      ReadiedComposed(warps, intersections, n, h);
      var region := Get(RegionOf(n), {}, h);
      var wide := Get(WideOf(n, intersections[WarpKey(n)]), {}, h);
      groups := region * wide;
    }

    // ----- remap ----------------------------------------------------------------------------

    /** The loop of `remap_chunk`: the ids of chunk c are renumbered and its new references collected. */
    method RemapSlots(c: nat, vec: seq<nat>, prev: set<nat>, ghost all: set<nat>) returns (prev': set<nat>,
          next: set<nat>)
      requires WellFormed(chunks, height) && c < |chunks| && Small(chunks[c], |vec|)
               && KidsIn(ShapeOf(chunks), {c}, all)
      modifies this`chunks
      ensures RenumberedAll(old(chunks), chunks, {c}, vec)
      ensures prev' == prev + next && next !! prev && next <= all
      ensures forall k | k in next :: k < |chunks| && height[k] < height[c]
      ensures KidsIn(ShapeOf(old(chunks)), {c}, prev')
    {
      hide Layered, Between, Passed, RenumberedTo;
      ghost var was := chunks;
      prev', next := prev, {};
      forall e { EveryDigit(0, e); }
      EveryDigit(0, 0);
      RenumberStart(was, c, vec);
      var d: bv8, more := 0, true;
      while more
        invariant more ==> Between(0, d, 0xFF)
        invariant |chunks| == |was| && RenumberedTo(was, chunks, c, vec, d, more)
        invariant prev' == prev + next && next !! prev && next <= all
        invariant forall k | k in next :: k < |chunks| && height[k] < height[c]
        invariant forall e: bv8 | Passed(0, 0xFF, d, more, e) && was[c].At(e).Link? :: was[c].At(e).chunk in prev'
        decreases more, !d
      {
        SlotValues(was, height, c, d);
        RenumberHere(was, chunks, c, vec, d);
        RenumberNext(was, chunks, c, vec, d);
        match chunks[c].At(d) {
          case Link(k) =>
            if k !in prev' {
              next, prev' := next + {k}, prev' + {k};
            }
          case Group(g) =>
            chunks := chunks[c := chunks[c].Put(d, Group(vec[g]))];
        }
        ghost var at := d;
        if d == 0xFF {
          more := false;
        } else {
          d := d + 1;
        }
        PassedStep(0, 0xFF, at, d, more);
      }
      RenumberEnd(was, chunks, c, vec, d);
      forall e { EveryDigit(d, e); }
    }
  
    /** `remap_chunk`: renumbers chunk c and every chunk that is reached for the first time. */
    method RemapChunk(c: nat, vec: seq<nat>, prev: set<nat>, ghost was: seq<Chunk>, ghost z: set<nat>,
                      ghost all: set<nat>)
      returns (prev': set<nat>, ghost z': set<nat>)
      requires c < |height| && Renumbering(was, chunks, height, z, prev, vec, height[c] + 1, all) && c !in z && c in all
      modifies this`chunks
      ensures Renumbering(was, chunks, height, z', prev', vec, height[c], all) && prev <= prev'
      ensures z' == z + {c} + (prev' - prev)
      ensures forall k | k in prev' - prev :: k < |height| && height[k] < height[c] && k !in z
      ensures KidsIn(ShapeOf(was), {c} + (prev' - prev), prev')
      decreases height[c]
    {
      hide *;
      var next;
      prev', next := RemapFirst(c, vec, prev, was, z, all);
      z' := z + {c};
      var todo := next;
      RemapStart(was, chunks, height, vec, c, z, prev, prev', next, all);
      while todo != {}
        invariant RemapState(was, chunks, height, vec, c, z, prev, prev', z', todo, all)
        decreases |todo|
      {
        var k :| k in todo;
        ghost var c1, z1, p1 := chunks, z', prev';
        RemapNext(was, chunks, height, vec, c, z, prev, prev', z', todo, k, all);
        prev', z' := RemapChunk(k, vec, prev', was, z', all);
        RemapRound(was, c1, chunks, height, vec, c, k, z, prev, p1, z1, todo, prev', z', all);
        todo := todo - {k};
      }
      RemapEnd(was, chunks, height, vec, c, z, prev, prev', z', all);
    }

    /** The part of `remap_chunk` before the calls for the next chunks. */
    method RemapFirst(c: nat, vec: seq<nat>, prev: set<nat>, ghost was: seq<Chunk>, ghost z: set<nat>,
                      ghost all: set<nat>) returns (prev': set<nat>, next: set<nat>)
      requires c < |height| && Renumbering(was, chunks, height, z, prev, vec, height[c] + 1, all) && c !in z && c in all
      modifies this`chunks
      ensures prev' == prev + next && next !! prev && Sized(was)
      ensures forall k | k in next :: k < |height| && height[k] < height[c] && k !in z
      ensures Renumbering(was, chunks, height, z + {c}, prev', vec, height[c], all)
      ensures KidsIn(ShapeOf(was), {c}, prev')
    {
      hide Layered, Renumbered, Small, KidsIn;
      RenumberedShape(was, chunks, height, z, vec);
      ghost var c1 := chunks;
      assert Small(was[c], |vec|) && c1[c] == was[c];
      assert KidsIn(ShapeOf(c1), {c}, all) by { ClosedKids(ShapeOf(was), all, c); }
      prev', next := RemapSlots(c, vec, prev, all);
      RenumberMore(was, c1, chunks, z, c, vec);
    }

    /**
      `remap`: every chunk reached from the root is renumbered once, so every address gets the new number of
      its id.
    */
    method Remap(vec: seq<nat>, ghost h: nat)
      requires WellFormed(chunks, height) && 0 < |chunks| && height[0] == h
      requires forall a: Digits | |a| == h :: Lookup(chunks, height, 0, a) < |vec|
      modifies this`chunks
      ensures WellFormed(chunks, height) && |chunks| == |old(chunks)|
      ensures forall a: Digits | |a| == h ::
                Lookup(chunks, height, 0, a) == vec[Lookup(old(chunks), height, 0, a)]
    {
      hide Layered, Renumbered, KidsIn, AllSmall;
      ghost var was := chunks;
      var prev;
      ghost var z;
      RootSmall(chunks, height, 0, h, |vec|);
      prev, z := RemapChunk(0, vec, {}, was, {}, ReachSet(chunks, height, 0));
      RenumberedShape(was, chunks, height, z, vec);
      assert z == {0} + (prev - {});
      KidsGrow(ShapeOf(was), z, prev);
      forall a: Digits | |a| == h
        ensures Lookup(was, height, 0, a) < |vec| && Lookup(chunks, height, 0, a) == vec[Lookup(was, height, 0, a)]
      {
        RenumberedLookup(was, chunks, height, z, vec, 0, a);
      }
    }
  
    // ----- insert ---------------------------------------------------------------------------

    /** The warp of the network (`warp_chunk_ids.find`). */
    method FindWarp(n: Net) returns (i: Option<nat>)
      requires |n.addr| == |n.mask|
      ensures i.Some? <==> HasWarp(warps, n)
      ensures i.Some? ==> i.value < |warps| && WarpOf(warps[i.value], n)
    {
      hide WarpOf;
      var j := 0;
      while j < |warps|
        invariant j <= |warps| && forall k | 0 <= k < j :: !WarpOf(warps[k], n)
      {
        if WarpOf(warps[j], n) {
          return Some(j);
        }
        j := j + 1;
      }
      i := None;
    }

    /** Inserting below root r: `insert_step` from the chunk of the root. */
    method InsertAt(n: Net, groupId: nat, remap: seq<nat>, r: nat, ghost nets: iset<(nat, Net)>,
                    ghost before: imap<Cell, nat>, ghost done: iset<Cell>)
      returns (groupId': nat, remap': seq<nat>)
      requires Prepared(chunks, height, roots, nets, warps) && r in roots && (r, n) in nets
      requires r < |height| && |n.addr| == |n.mask| == height[r] && Contiguous(n.mask)
      requires |remap| >= 1 && Splitting(before, Ids(), done, Assigned(remap), |remap|, groupId)
      modifies this`chunks, this`height
      ensures Prepared(chunks, height, roots, nets, warps) && Extends(old(height), height)
      ensures |remap'| == |remap|
      ensures Splitting(before, Ids(), done + NetCells(r, n), Assigned(remap'), |remap|, groupId')
    {
      hide Splitting, Aligned, Gaps, Labels, NetCells, Layered, Exact, WarpsFit, Contiguous;
      RootsPrivate(chunks, height, roots, nets, warps);
      assert n == Net([] + n.addr, Ones(0) + n.mask) && Walk(Form(), r, []) == Some(r);
      ghost var was := height;
      groupId', remap' := InsertStep(n.addr, n.mask, groupId, remap, r, nets, r, n, [], before, done);
      WarpsKept(was, height, roots, nets, warps);
    }

    /**
      `insert`: splits the groups by the network, below the root or below a warp, or by both pieces of a
      composed network.
    */
    method Insert(n: Net, groupId: nat, remap: seq<nat>, ghost simple: iset<Net>, ghost before: imap<Cell, nat>,
                  ghost done: iset<Cell>)
      returns (groupId': nat, remap': seq<nat>)
      requires Prepared(chunks, height, roots, InsertNets(warps, simple), warps)
               && Known(warps, intersections, simple, n, height[0])
      requires |remap| >= 1 && Splitting(before, Ids(), done, Assigned(remap), |remap|, groupId)
      modifies this`chunks, this`height
      ensures Prepared(chunks, height, roots, InsertNets(warps, simple), warps) && Extends(old(height), height)
      ensures |remap'| == |remap|
      ensures Splitting(before, Ids(), done + PieceCells(warps, intersections, n), Assigned(remap'), |remap|, groupId')
      decreases if Contiguous(n.mask) || HasWarp(warps, n) then 0 else 1
    {
      hide Splitting, Aligned, Gaps, Labels, NetCells, Layered, Exact, WarpsFit, Supported, WarpOf, HasWarp, InsertNets,
           Contiguous, Prepared, CellsOf;
      hide RegionOf, PieceCells, Placed;
      ghost var nets := InsertNets(warps, simple);
      PreparedParts(chunks, height, roots, nets, warps);
      if Contiguous(n.mask) {
        NetListed(warps, simple, n);
        CellsOfSimple(warps, n);
        PiecesOwn(warps, intersections, n);
        groupId', remap' := InsertAt(n, groupId, remap, 0, nets, before, done);
      } else {
        var i := FindWarp(n);
        if i.Some? {
          PiecesOwn(warps, intersections, n);
          PlacedSupported(warps, intersections, n, height[0]);
          groupId', remap' := InsertWarp(n, i.value, groupId, remap, simple, before, done);
        } else {
          groupId', remap' := InsertComposed(n, groupId, remap, simple, before, done);
        }
      }
    }

    /** `insert` for a gapped network with a warp. */
    method InsertWarp(n: Net, i: nat, groupId: nat, remap: seq<nat>, ghost simple: iset<Net>,
                      ghost before: imap<Cell, nat>, ghost done: iset<Cell>)
      returns (groupId': nat, remap': seq<nat>)
      requires Prepared(chunks, height, roots, InsertNets(warps, simple), warps) && |n.addr| == |n.mask| == height[0]
      requires !Contiguous(n.mask) && Supported(n) && i < |warps| && WarpOf(warps[i], n)
      requires |remap| >= 1 && Splitting(before, Ids(), done, Assigned(remap), |remap|, groupId)
      modifies this`chunks, this`height
      ensures Prepared(chunks, height, roots, InsertNets(warps, simple), warps) && Extends(old(height), height)
      ensures |remap'| == |remap|
      ensures Splitting(before, Ids(), done + CellsOf(warps, n), Assigned(remap'), |remap|, groupId')
    {
      hide Splitting, Aligned, Gaps, Labels, NetCells, Layered, Exact, WarpsFit, Supported, WarpOf, InsertNets,
           Contiguous, Prepared, CellsOf;
      ghost var nets := InsertNets(warps, simple);
      PreparedParts(chunks, height, roots, nets, warps);
      var l := warps[i].level;
      WarpParts(height, roots, nets, warps, i);
      TailCovers(n, warps[i], height[0]);
      WarpListed(height, roots, nets, warps, simple, i, TailOf(n, l));
      CellsOfWarp(height, roots, nets, warps, n, i);
      groupId', remap' := InsertAt(Net(n.addr[l..], n.mask[l..]), groupId, remap, warps[i].chunk, nets, before, done);
    }

    /** `insert` for a composed network: its region and the wide network, with the same remapping. */
    method InsertComposed(n: Net, groupId: nat, remap: seq<nat>, ghost simple: iset<Net>, ghost before: imap<Cell, nat>,
                          ghost done: iset<Cell>)
      returns (groupId': nat, remap': seq<nat>)
      requires Prepared(chunks, height, roots, InsertNets(warps, simple), warps)
               && Known(warps, intersections, simple, n, height[0])
      requires !Contiguous(n.mask) && !HasWarp(warps, n)
      requires |remap| >= 1 && Splitting(before, Ids(), done, Assigned(remap), |remap|, groupId)
      modifies this`chunks, this`height
      ensures Prepared(chunks, height, roots, InsertNets(warps, simple), warps) && Extends(old(height), height)
      ensures |remap'| == |remap|
      ensures Splitting(before, Ids(), done + PieceCells(warps, intersections, n), Assigned(remap'), |remap|, groupId')
      decreases 1, 0
    {
      hide Splitting, Aligned, Gaps, Labels, NetCells, Layered, Exact, WarpsFit, Supported, WarpOf, HasWarp, InsertNets,
           Contiguous, Prepared, CellsOf;
      hide RegionOf, Placed, WarpKey, WideOf, IsComposed;
      PreparedParts(chunks, height, roots, InsertNets(warps, simple), warps);
      KnownComposed(warps, intersections, simple, n, height[0]);
      var region, wide := RegionOf(n), WideOf(n, intersections[WarpKey(n)]);
      PiecesOwn(warps, intersections, region);
      PiecesOwn(warps, intersections, wide);
      ghost var was := height;
      groupId', remap' := Insert(region, groupId, remap, simple, before, done);
      ghost var now, done' := height, done + CellsOf(warps, region);
      PreparedParts(chunks, height, roots, InsertNets(warps, simple), warps);
      groupId', remap' := Insert(wide, groupId', remap', simple, before, done');
      ExtendsTransitive(was, now, height);
      assert done' + CellsOf(warps, wide) == done + PieceCells(warps, intersections, n);
    }
  }
}
