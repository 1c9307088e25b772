/**
 * The pure part of the chunked model loader: from a directory listing keep the
 * `.bin` files, order them by the first decimal number in their name, and join
 * their bytes into one model buffer.
 */
module ChunkLoader {
  import opened Imaging
  import opened Outcomes

  /** A directory entry together with the bytes the file holds. */
  datatype Chunk = Chunk(name: string, contents: seq<byte>)

  /** `name.endsWith('.bin')` */
  predicate IsBin(name: string) {
    |name| >= 4 && name[|name| - 4..] == ".bin"
  }

  /** What the regular expression `\d` matches. */
  predicate IsDigit(c: char) {
    '0' <= c <= '9'
  }

  predicate AllDigits(s: string) {
    forall i :: 0 <= i < |s| ==> IsDigit(s[i])
  }

  predicate NoDigits(s: string) {
    forall i :: 0 <= i < |s| ==> !IsDigit(s[i])
  }

  /** `Number(d)` for a string of decimal digits (leading zeros allowed). */
  function DecimalValue(d: string): nat
    requires AllDigits(d)
  {
    if d == [] then 0
    else 10 * DecimalValue(d[..|d| - 1]) + (d[|d| - 1] as int - '0' as int)
  }

  /** The longest prefix of `s` made of digits. */
  function DigitPrefix(s: string): (d: string)
    ensures d <= s && AllDigits(d)
    ensures |d| < |s| ==> !IsDigit(s[|d|])
  {
    if s != [] && IsDigit(s[0]) then [s[0]] + DigitPrefix(s[1..]) else []
  }

  /**
   * `Number(name.match(/\d+/)?.[0] ?? 0)`: the value of the first run of
   * decimal digits in `name`, or 0 when it has none.
   */
  function ChunkIndex(name: string): nat
  {
    if name == [] then 0
    else if IsDigit(name[0]) then DecimalValue(DigitPrefix(name))
    else ChunkIndex(name[1..])
  }

  /** The digit prefix of a run of digits followed by a non-digit is that run. */
  lemma {:induction false} DigitPrefixOfRun(run: string, post: string)
    requires AllDigits(run)
    requires post == [] || !IsDigit(post[0])
    ensures DigitPrefix(run + post) == run
  {
    if run != [] {
      assert (run + post)[1..] == run[1..] + post;
      DigitPrefixOfRun(run[1..], post);
    }
  }

  /** The index is the value of the first maximal run of digits. */
  lemma {:induction false} ChunkIndexIsFirstRun(pre: string, run: string, post: string)
    requires NoDigits(pre) && AllDigits(run) && run != []
    requires post == [] || !IsDigit(post[0])
    ensures ChunkIndex(pre + run + post) == DecimalValue(run)
  {
    if pre == [] {
      assert pre + run + post == run + post;
      DigitPrefixOfRun(run, post);
    } else {
      assert (pre + run + post)[1..] == pre[1..] + run + post;
      ChunkIndexIsFirstRun(pre[1..], run, post);
    }
  }

  /** A name without digits has index 0 (the `?? 0` fallback). */
  lemma {:induction false} ChunkIndexNoDigits(name: string)
    requires NoDigits(name)
    ensures ChunkIndex(name) == 0
  {
    if name != [] {
      ChunkIndexNoDigits(name[1..]);
    }
  }

  function Key(c: Chunk): nat {
    ChunkIndex(c.name)
  }

  /** `files.filter(f => f.endsWith('.bin'))`, keeping listing order. */
  function Bins(listing: seq<Chunk>): (bins: seq<Chunk>)
    ensures forall c :: c in bins ==> IsBin(c.name)
    ensures forall c :: multiset(bins)[c] == if IsBin(c.name) then multiset(listing)[c] else 0
  {
    if listing == [] then []
    else
      assert listing == [listing[0]] + listing[1..];
      (if IsBin(listing[0].name) then [listing[0]] else []) + Bins(listing[1..])
  }

  /** Chunk indices never decrease along `s`. */
  predicate Ascending(s: seq<Chunk>) {
    forall i, j :: 0 <= i < j < |s| ==> Key(s[i]) <= Key(s[j])
  }

  /** Insert `c` before the first chunk whose index is not smaller. */
  function Insert(c: Chunk, sorted: seq<Chunk>): (r: seq<Chunk>)
    ensures multiset(r) == multiset(sorted) + multiset{c}
    ensures forall x :: x in r ==> x == c || x in sorted
  {
    if sorted == [] || Key(c) <= Key(sorted[0]) then [c] + sorted
    else
      assert sorted == [sorted[0]] + sorted[1..];
      [sorted[0]] + Insert(c, sorted[1..])
  }

  /** Inserting into an ascending sequence keeps it ascending. */
  lemma {:induction false} InsertAscending(c: Chunk, sorted: seq<Chunk>)
    requires Ascending(sorted)
    ensures Ascending(Insert(c, sorted))
  {
    if sorted != [] && Key(c) > Key(sorted[0]) {
      var rest := Insert(c, sorted[1..]);
      InsertAscending(c, sorted[1..]);
      var r := [sorted[0]] + rest;
      assert r == Insert(c, sorted);
      forall i, j | 0 <= i < j < |r|
        ensures Key(r[i]) <= Key(r[j])
      {
        if i > 0 {
          assert r[i] == rest[i - 1] && r[j] == rest[j - 1];
        } else if r[j] != c {
          assert r[j] in rest;
          var k :| 0 <= k < |sorted[1..]| && sorted[1..][k] == r[j];
          assert sorted[k + 1] == r[j];
        }
      }
    }
  }

  /** The comparator `(a, b) => na - nb` under a stable sort. */
  function SortByIndex(s: seq<Chunk>): (r: seq<Chunk>)
    ensures Ascending(r)
    ensures multiset(r) == multiset(s)
  {
    if s == [] then []
    else
      assert s == [s[0]] + s[1..];
      InsertAscending(s[0], SortByIndex(s[1..]));
      Insert(s[0], SortByIndex(s[1..]))
  }

  /** The chunks of `s` whose index is `k`, in their order in `s`. */
  function WithIndex(s: seq<Chunk>, k: nat): seq<Chunk> {
    if s == [] then []
    else (if Key(s[0]) == k then [s[0]] else []) + WithIndex(s[1..], k)
  }

  lemma {:induction false} InsertWithIndex(c: Chunk, sorted: seq<Chunk>, k: nat)
    ensures WithIndex(Insert(c, sorted), k) == (if Key(c) == k then [c] else []) + WithIndex(sorted, k)
  {
    if sorted == [] || Key(c) <= Key(sorted[0]) {
      assert ([c] + sorted)[1..] == sorted;
    } else {
      var rest := Insert(c, sorted[1..]);
      assert ([sorted[0]] + rest)[1..] == rest;
      InsertWithIndex(c, sorted[1..], k);
    }
  }

  /** Sorting is stable: chunks with equal index keep their listing order. */
  lemma {:induction false} SortIsStable(s: seq<Chunk>, k: nat)
    ensures WithIndex(SortByIndex(s), k) == WithIndex(s, k)
  {
    if s != [] {
      SortIsStable(s[1..], k);
      InsertWithIndex(s[0], SortByIndex(s[1..]), k);
    }
  }

  lemma {:induction false} WithIndexAppend(a: seq<Chunk>, b: seq<Chunk>, k: nat)
    ensures WithIndex(a + b, k) == WithIndex(a, k) + WithIndex(b, k)
  {
    if a != [] {
      assert (a + b)[0] == a[0] && (a + b)[1..] == a[1..] + b;
      WithIndexAppend(a[1..], b, k);
      var picked := if Key(a[0]) == k then [a[0]] else [];
      AppendAssociates(picked, WithIndex(a[1..], k), WithIndex(b, k));
    } else {
      assert a + b == b;
    }
  }

  lemma AppendAssociates<T>(x: seq<T>, y: seq<T>, z: seq<T>)
    ensures x + (y + z) == (x + y) + z
  {
  }

  lemma {:induction false} BinsAppend(a: seq<Chunk>, b: seq<Chunk>)
    ensures Bins(a + b) == Bins(a) + Bins(b)
  {
    if a != [] {
      var t := a[1..] + b;
      assert (a + b)[0] == a[0] && (a + b)[1..] == t;
      BinsAppend(a[1..], b);
      var kept := if IsBin(a[0].name) then [a[0]] else [];
      assert Bins(a + b) == kept + Bins(t);
      assert Bins(a) == kept + Bins(a[1..]);
      AppendAssociates(kept, Bins(a[1..]), Bins(b));
    } else {
      assert a + b == b;
      assert Bins(a) == [];
    }
  }

  lemma SingleBinsWithIndex(c: Chunk, k: nat)
    ensures WithIndex(Bins([c]), k) == Bins(WithIndex([c], k))
  {
  }

  /** Keeping the chunks of one index commutes with keeping the `.bin` names. */
  lemma {:induction false} BinsWithIndex(listing: seq<Chunk>, k: nat)
    ensures WithIndex(Bins(listing), k) == Bins(WithIndex(listing, k))
  {
    if listing != [] {
      var c, rest := listing[0], listing[1..];
      assert listing == [c] + rest;
      calc {
        WithIndex(Bins(listing), k);
        == { BinsAppend([c], rest); }
        WithIndex(Bins([c]) + Bins(rest), k);
        == { WithIndexAppend(Bins([c]), Bins(rest), k); }
        WithIndex(Bins([c]), k) + WithIndex(Bins(rest), k);
        == { SingleBinsWithIndex(c, k); BinsWithIndex(rest, k); }
        Bins(WithIndex([c], k)) + Bins(WithIndex(rest, k));
        == { BinsAppend(WithIndex([c], k), WithIndex(rest, k)); }
        Bins(WithIndex([c], k) + WithIndex(rest, k));
        == { WithIndexAppend([c], rest, k); }
        Bins(WithIndex(listing, k));
      }
    }
  }

  /** The chunk files in the order the loader reads them. */
  function ChunkOrder(listing: seq<Chunk>): seq<Chunk> {
    SortByIndex(Bins(listing))
  }

  /** Exactly the `.bin` entries, each as often as listed, ascending by index, ties in listing order. */
  lemma ChunkOrderSpec(listing: seq<Chunk>, k: nat)
    ensures Ascending(ChunkOrder(listing))
    ensures forall c :: multiset(ChunkOrder(listing))[c] == if IsBin(c.name) then multiset(listing)[c] else 0
    ensures WithIndex(ChunkOrder(listing), k) == Bins(WithIndex(listing, k))
  {
    SortIsStable(Bins(listing), k);
    BinsWithIndex(listing, k);
  }

  /** `Buffer.concat(buffers)` */
  function Concat(chunks: seq<Chunk>): seq<byte> {
    if chunks == [] then [] else chunks[0].contents + Concat(chunks[1..])
  }

  /** The sum of the chunk lengths. */
  function TotalSize(chunks: seq<Chunk>): nat {
    if chunks == [] then 0 else |chunks[0].contents| + TotalSize(chunks[1..])
  }

  lemma {:induction false} ConcatLength(chunks: seq<Chunk>)
    ensures |Concat(chunks)| == TotalSize(chunks)
  {
    if chunks != [] {
      ConcatLength(chunks[1..]);
    }
  }

  /** Chunk `k` occupies the bytes right after the chunks before it. */
  lemma {:induction false} ConcatPlacesChunk(chunks: seq<Chunk>, k: nat)
    requires k < |chunks|
    ensures TotalSize(chunks[..k]) + |chunks[k].contents| <= |Concat(chunks)|
    ensures Concat(chunks)[TotalSize(chunks[..k])..TotalSize(chunks[..k]) + |chunks[k].contents|]
            == chunks[k].contents
  {
    ConcatLength(chunks);
    if k == 0 {
      assert chunks[..0] == [];
    } else {
      assert chunks[..k][1..] == chunks[1..][..k - 1];
      ConcatPlacesChunk(chunks[1..], k - 1);
      ConcatLength(chunks[1..]);
    }
  }

  /**
   * The model buffer the loader builds from a listing: an error when no `.bin`
   * chunk is listed, otherwise the chunk contents joined in chunk order.
   */
  function AssembleModel(listing: seq<Chunk>): (r: Result<seq<byte>>)
    ensures r.Err? <==> forall c :: c in listing ==> !IsBin(c.name)
    ensures r.Err? ==> r.error == NoChunks
    ensures r.Ok? ==> r.value == Concat(ChunkOrder(listing)) && |r.value| == TotalSize(ChunkOrder(listing))
  {
    var order := ChunkOrder(listing);
    ConcatLength(order);
    assert forall c :: c in listing && IsBin(c.name) ==> c in multiset(order);
    if order == [] then Err(NoChunks) else Ok(Concat(order))
  }
}
