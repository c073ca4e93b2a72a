/**
 * Day 20: image tiles and their edge signatures. A tile's four edges are
 * reduced to orientation-free references; a map from reference to tile ids
 * tells which edges are shared, and the corner tiles are those with exactly
 * two shared edges.
 *
 * Swift's `hashValue` is seeded per process, so the hash of an edge is a
 * parameter `hash` here; `Int` is 64 bits wide and `^` is its exclusive or.
 */
module TileMatching {
  import opened Seqs
  import opened Collections

  type Hash = seq<char> -> bv64

  datatype EdgeRef = EdgeRef(signature: bv64)

  datatype Tile = Tile(id: int, rows: seq<seq<char>>, edgeRefs: seq<EdgeRef>)

  function Reversed(e: seq<char>): (r: seq<char>)
    ensures |r| == |e| && forall i :: 0 <= i < |e| ==> r[i] == e[|e| - 1 - i]
  {
    seq(|e|, i requires 0 <= i < |e| => e[|e| - 1 - i])
  }

  lemma ReversedTwice(e: seq<char>)
    ensures Reversed(Reversed(e)) == e
  {
  }

  /** `EdgeRef(edge:)`: the hashes of the edge read both ways, combined by exclusive or. */
  function Ref(e: seq<char>, hash: Hash): (r: EdgeRef)
    ensures r.signature == hash(Reversed(e)) ^ hash(e)
  {
    EdgeRef(hash(e) ^ hash(Reversed(e)))
  }

  /** An edge and its reversal have the same reference, whatever the hash. */
  lemma RefReversed(e: seq<char>, hash: Hash)
    ensures Ref(Reversed(e), hash) == Ref(e, hash)
  {
    ReversedTwice(e);
  }

  /** A palindromic edge has signature zero. */
  lemma PalindromeRef(e: seq<char>, hash: Hash)
    requires Reversed(e) == e
    ensures Ref(e, hash).signature == 0
  {
  }

  /** Rows from which `first!` and `last!` can take the edges without trapping. */
  predicate HasEdges(rows: seq<seq<char>>)
  {
    |rows| > 0 && forall i :: 0 <= i < |rows| ==> |rows[i]| > 0
  }

  function Last(row: seq<char>): char
    requires |row| > 0
  {
    row[|row| - 1]
  }

  /**
   * The edges of `Tile.init`: top row, right column, bottom row reversed and
   * left column. Consecutive edges meet at the tile's corners.
   */
  function Edges(rows: seq<seq<char>>): (r: seq<seq<char>>)
    requires HasEdges(rows)
    ensures |r| == 4 && forall k :: 0 <= k < 4 ==> |r[k]| > 0
    ensures Last(r[0]) == r[1][0] && Last(r[1]) == r[2][0]
    ensures Last(r[2]) == Last(r[3]) && r[3][0] == r[0][0]
  {
    [rows[0], RightColumn(rows), Reversed(rows[|rows| - 1]), LeftColumn(rows)]
  }

  function RightColumn(rows: seq<seq<char>>): (r: seq<char>)
    requires HasEdges(rows)
    ensures |r| == |rows| && forall i :: 0 <= i < |rows| ==> r[i] == Last(rows[i])
  {
    seq(|rows|, i requires 0 <= i < |rows| && |rows[i]| > 0 => Last(rows[i]))
  }

  function LeftColumn(rows: seq<seq<char>>): (r: seq<char>)
    requires HasEdges(rows)
    ensures |r| == |rows| && forall i :: 0 <= i < |rows| ==> r[i] == rows[i][0]
  {
    seq(|rows|, i requires 0 <= i < |rows| && |rows[i]| > 0 => rows[i][0])
  }

  /** `Tile.init`: the tile keeps its rows and the references of its four edges. */
  function MakeTile(id: int, rows: seq<seq<char>>, hash: Hash): (t: Tile)
    requires HasEdges(rows)
    ensures t.id == id && t.rows == rows && |t.edgeRefs| == 4
    ensures forall k :: 0 <= k < 4 ==> t.edgeRefs[k] == Ref(Edges(rows)[k], hash)
  {
    Tile(id, rows, Map(Edges(rows), e => Ref(e, hash)))
  }

  /** Each row read right to left: the tile mirrored about its vertical axis. */
  function FlipH(rows: seq<seq<char>>): (r: seq<seq<char>>)
    ensures |r| == |rows| && forall i :: 0 <= i < |rows| ==> r[i] == Reversed(rows[i])
  {
    Map(rows, Reversed)
  }

  /** The rows in reverse order: the tile mirrored about its horizontal axis. */
  function FlipV(rows: seq<seq<char>>): (r: seq<seq<char>>)
    ensures |r| == |rows| && forall i :: 0 <= i < |rows| ==> r[i] == rows[|rows| - 1 - i]
  {
    seq(|rows|, i requires 0 <= i < |rows| => rows[|rows| - 1 - i])
  }

  /** The references of a tile, edge by edge. */
  lemma RefsOf(id: int, rows: seq<seq<char>>, hash: Hash)
    requires HasEdges(rows)
    ensures var e := Edges(rows);
      MakeTile(id, rows, hash).edgeRefs == [Ref(e[0], hash), Ref(e[1], hash), Ref(e[2], hash), Ref(e[3], hash)]
  {
  }

  lemma FlipHEdges(rows: seq<seq<char>>)
    requires HasEdges(rows)
    ensures HasEdges(FlipH(rows))
    ensures var e, f := Edges(rows), Edges(FlipH(rows));
      f[0] == Reversed(e[0]) && f[1] == e[3] && f[2] == Reversed(e[2]) && f[3] == e[1]
  {
    var h := FlipH(rows);
    assert HasEdges(h);
    var e, f := Edges(rows), Edges(h);
    assert f[1] == e[3] by {
      forall i | 0 <= i < |rows| ensures f[1][i] == e[3][i] {
        assert h[i] == Reversed(rows[i]);
      }
    }
    assert f[3] == e[1] by {
      forall i | 0 <= i < |rows| ensures f[3][i] == e[1][i] {
        assert h[i] == Reversed(rows[i]);
      }
    }
  }

  lemma FlipVEdges(rows: seq<seq<char>>)
    requires HasEdges(rows)
    ensures HasEdges(FlipV(rows))
    ensures var e, f := Edges(rows), Edges(FlipV(rows));
      f[0] == Reversed(e[2]) && f[1] == Reversed(e[1]) && f[2] == Reversed(e[0]) && f[3] == Reversed(e[3])
  {
    var v := FlipV(rows);
    assert HasEdges(v) by {
      forall i | 0 <= i < |v| ensures |v[i]| > 0 {
        assert v[i] == rows[|rows| - 1 - i];
      }
    }
    ReversedTwice(rows[|rows| - 1]);
    assert v[|rows| - 1] == rows[0];
    FlipVColumns(rows);
  }

  lemma FlipVColumns(rows: seq<seq<char>>)
    requires HasEdges(rows) && HasEdges(FlipV(rows))
    ensures RightColumn(FlipV(rows)) == Reversed(RightColumn(rows))
    ensures LeftColumn(FlipV(rows)) == Reversed(LeftColumn(rows))
  {
    var v := FlipV(rows);
    forall i | 0 <= i < |rows| ensures v[i] == rows[|rows| - 1 - i] {
    }
  }

  /** Mirroring left to right swaps the left and right edges and keeps the references of all four. */
  lemma FlipHRefs(id: int, rows: seq<seq<char>>, hash: Hash)
    requires HasEdges(rows)
    ensures HasEdges(FlipH(rows))
    ensures var r, t := MakeTile(id, rows, hash).edgeRefs, MakeTile(id, FlipH(rows), hash).edgeRefs;
      t == [r[0], r[3], r[2], r[1]]
  {
    var e, f := Edges(rows), Edges(FlipH(rows));
    FlipHEdges(rows);
    RefsOf(id, rows, hash);
    RefsOf(id, FlipH(rows), hash);
    RefReversed(e[0], hash);
    RefReversed(e[2], hash);
  }

  /** Mirroring top to bottom reverses every edge and swaps the top and bottom ones, keeping the references. */
  lemma FlipVRefs(id: int, rows: seq<seq<char>>, hash: Hash)
    requires HasEdges(rows)
    ensures HasEdges(FlipV(rows))
    ensures var r, t := MakeTile(id, rows, hash).edgeRefs, MakeTile(id, FlipV(rows), hash).edgeRefs;
      t == [r[2], r[1], r[0], r[3]]
  {
    var e, f := Edges(rows), Edges(FlipV(rows));
    FlipVEdges(rows);
    RefsOf(id, rows, hash);
    RefsOf(id, FlipV(rows), hash);
    RefReversed(e[0], hash);
    RefReversed(e[1], hash);
    RefReversed(e[2], hash);
    RefReversed(e[3], hash);
  }

  /** The ids recorded so far for `ref`, `[]` when it has no entry (Swift's `default: []`). */
  function Lookup(m: map<EdgeRef, seq<int>>, ref: EdgeRef): seq<int>
  {
    if ref in m then m[ref] else []
  }

  function Repeat(id: int, n: nat): (r: seq<int>)
    ensures |r| == n && forall i :: 0 <= i < n ==> r[i] == id
  {
    seq(n, _ => id)
  }

  /** `result[edgeRef, default: []].append(id)` for each of `refs` in turn. */
  function AddRefs(m: map<EdgeRef, seq<int>>, refs: seq<EdgeRef>, id: int): map<EdgeRef, seq<int>>
    decreases refs
  {
    if refs == [] then m else AddRefs(m[refs[0] := Lookup(m, refs[0]) + [id]], refs[1..], id)
  }

  /** Adding a tile appends its id once per occurrence of a reference among its edges, and adds a key for each new reference. */
  lemma {:induction false} AddRefsSpec(m: map<EdgeRef, seq<int>>, refs: seq<EdgeRef>, id: int, ref: EdgeRef)
    ensures var r := AddRefs(m, refs, id);
      Lookup(r, ref) == Lookup(m, ref) + Repeat(id, Count(refs, ref)) &&
      (ref in r <==> ref in m || ref in refs)
    decreases refs
  {
    if refs != [] {
      var m' := m[refs[0] := Lookup(m, refs[0]) + [id]];
      AddRefsSpec(m', refs[1..], id, ref);
      var c := if refs[0] == ref then 1 else 0;
      assert Lookup(m', ref) == Lookup(m, ref) + Repeat(id, c);
      assert Repeat(id, c) + Repeat(id, Count(refs[1..], ref)) == Repeat(id, Count(refs, ref));
      assert ref in refs <==> ref == refs[0] || ref in refs[1..] by {
        assert refs == [refs[0]] + refs[1..];
      }
    }
  }

  function AddTile(m: map<EdgeRef, seq<int>>, t: Tile): map<EdgeRef, seq<int>>
  {
    AddRefs(m, t.edgeRefs, t.id)
  }

  /** `Puzzle.edge2TileMap`: the tiles folded in order into the map from reference to ids. */
  function Edge2TileMap(tiles: seq<Tile>): map<EdgeRef, seq<int>>
  {
    FoldLeft(map[], tiles, AddTile)
  }

  /** The ids of the tiles in order, each once per edge of it carrying `ref`. */
  function IdsWith(tiles: seq<Tile>, ref: EdgeRef): seq<int>
  {
    if tiles == [] then []
    else
      var t := tiles[|tiles| - 1];
      IdsWith(tiles[..|tiles| - 1], ref) + Repeat(t.id, Count(t.edgeRefs, ref))
  }

  /** Some tile has an edge carrying `ref`. */
  predicate Carried(tiles: seq<Tile>, ref: EdgeRef)
  {
    exists i :: 0 <= i < |tiles| && ref in tiles[i].edgeRefs
  }

  /**
   * The map lists, for each reference, the id of every tile edge carrying it,
   * with duplicates kept and in tile order, and has a key exactly for the
   * references some tile carries.
   */
  lemma {:induction false} Edge2TileMapSpec(tiles: seq<Tile>, ref: EdgeRef)
    ensures Lookup(Edge2TileMap(tiles), ref) == IdsWith(tiles, ref)
    ensures ref in Edge2TileMap(tiles) <==> Carried(tiles, ref)
  {
    if tiles != [] {
      var front, t := tiles[..|tiles| - 1], tiles[|tiles| - 1];
      assert tiles == front + [t];
      FoldLeftSnoc(map[], front, t, AddTile);
      Edge2TileMapSpec(front, ref);
      AddRefsSpec(Edge2TileMap(front), t.edgeRefs, t.id, ref);
      if Carried(tiles, ref) && ref !in t.edgeRefs {
        var i :| 0 <= i < |tiles| && ref in tiles[i].edgeRefs;
        assert i < |front| && front[i] == tiles[i];
      }
    }
  }

  /** The number of edges, over all tiles, carrying `ref`. */
  lemma {:induction false} IdsWithCount(tiles: seq<Tile>, ref: EdgeRef)
    ensures |IdsWith(tiles, ref)| > 0 <==> Carried(tiles, ref)
  {
    if tiles != [] {
      var front, t := tiles[..|tiles| - 1], tiles[|tiles| - 1];
      IdsWithCount(front, ref);
      CountIn(t.edgeRefs, ref);
      if Carried(tiles, ref) && ref !in t.edgeRefs {
        var i :| 0 <= i < |tiles| && ref in tiles[i].edgeRefs;
        assert i < |front| && front[i] == tiles[i];
      }
    }
  }

  lemma {:induction false} CountIn<A>(s: seq<A>, x: A)
    ensures Count(s, x) > 0 <==> x in s
  {
    if s != [] {
      CountIn(s[1..], x);
      assert s == [s[0]] + s[1..];
    }
  }

  /** An edge is shared when its map entry does not hold exactly one id. */
  predicate Shared(m: map<EdgeRef, seq<int>>, ref: EdgeRef)
  {
    ref in m && |m[ref]| != 1
  }

  /** The number of the tile's edges that are shared. */
  function SharedCount(m: map<EdgeRef, seq<int>>, t: Tile): nat
  {
    |Filter(t.edgeRefs, ref => Shared(m, ref))|
  }

  /** `findCorners`: the ids, in tile order, of the tiles with exactly two shared edges. */
  function FindCorners(tiles: seq<Tile>): (r: seq<int>)
    ensures |r| <= |tiles|
  {
    var m := Edge2TileMap(tiles);
    FilterLength(tiles, t => SharedCount(m, t) == 2);
    Map(Filter(tiles, t => SharedCount(m, t) == 2), (t: Tile) => t.id)
  }

  /**
   * The forced unwrap in `findCorners` never traps: every edge of every tile
   * has an entry, so an edge is shared exactly when more than one tile edge,
   * over the whole puzzle, carries its reference.
   */
  lemma SharedSpec(tiles: seq<Tile>, i: nat, ref: EdgeRef)
    requires i < |tiles| && ref in tiles[i].edgeRefs
    ensures ref in Edge2TileMap(tiles)
    ensures Shared(Edge2TileMap(tiles), ref) <==> |IdsWith(tiles, ref)| > 1
  {
    Edge2TileMapSpec(tiles, ref);
    IdsWithCount(tiles, ref);
  }

  /** A tile of the puzzle is reported as a corner exactly when two of its edges are shared; nothing else is reported. */
  lemma FindCornersSpec(tiles: seq<Tile>, id: int)
    ensures id in FindCorners(tiles) <==>
      exists i :: 0 <= i < |tiles| && tiles[i].id == id && SharedCount(Edge2TileMap(tiles), tiles[i]) == 2
  {
    var m := Edge2TileMap(tiles);
    var p := t => SharedCount(m, t) == 2;
    var f := Filter(tiles, p);
    if id in FindCorners(tiles) {
      var t := MapInv(f, (t: Tile) => t.id, id);
      InFilter(tiles, p, t);
      var i :| 0 <= i < |tiles| && tiles[i] == t;
    }
    if exists i :: 0 <= i < |tiles| && tiles[i].id == id && SharedCount(m, tiles[i]) == 2 {
      var i :| 0 <= i < |tiles| && tiles[i].id == id && SharedCount(m, tiles[i]) == 2;
      InFilter(tiles, p, tiles[i]);
      InMap(f, (t: Tile) => t.id, tiles[i]);
    }
  }
}
