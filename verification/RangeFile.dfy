/**
 A read-only file over HTTP byte ranges (sections 14.1.2 and 14.4 of RFC 9110), read block by block
 through a cache and within a download budget. The server and the disk may fail at every step.
 */
module RangeReader {
  import opened Wrappers

  type byte = x: int | 0 <= x < 256

  datatype Error = NegativeSeek | BudgetExceeded | BadRange | Unreachable

  /** What one request can come to: an error of the connection, a reply of the wrong range, or a body. */
  datatype Reply = Lost | WrongRange | Body(data: seq<byte>)

  // ---------------------------------------------------------------- blocks

  function Min(a: int, b: int): int { if a < b then a else b }

  /** The bytes of block `number`. */
  function BlockOf(remote: seq<byte>, blockSize: nat, number: nat): seq<byte>
    requires number * blockSize <= |remote|
  {
    remote[number * blockSize..Min(|remote|, number * blockSize + blockSize)]
  }

  /** The total length of the chosen blocks among the first k. */
  function Total(size: nat, blockSize: nat, chosen: set<nat>, k: nat): int {
    if k == 0 then 0
    else
      Total(size, blockSize, chosen, k - 1)
      + if k - 1 in chosen then Min(size, (k - 1) * blockSize + blockSize) - (k - 1) * blockSize else 0
  }

  lemma {:induction false} TotalWithout(size: nat, blockSize: nat, chosen: set<nat>, number: nat, k: nat)
    requires number !in chosen
    ensures Total(size, blockSize, chosen + {number}, k)
            == Total(size, blockSize, chosen, k)
               + if number < k then Min(size, number * blockSize + blockSize) - number * blockSize else 0
  {
    if k > 0 {
      TotalWithout(size, blockSize, chosen, number, k - 1);
    }
  }

  /** Different blocks do not overlap: together they are no longer than the file. */
  lemma {:induction false} TotalFits(size: nat, blockSize: nat, chosen: set<nat>, k: nat)
    requires forall n | n in chosen :: n * blockSize < size
    ensures Total(size, blockSize, chosen, k) <= Min(size, k * blockSize)
  {
    if k > 0 {
      TotalFits(size, blockSize, chosen, k - 1);
      assert k * blockSize == (k - 1) * blockSize + blockSize;
    }
  }

  lemma NumberBound(number: nat, blockSize: nat, size: nat)
    requires blockSize > 0 && number * blockSize < size
    ensures number < size
  {
    assert number * blockSize >= number;
  }

  /** The number of the block that a position is in. */
  function NumberAt(position: nat, blockSize: nat): (number: nat)
    requires blockSize > 0
  {
    DivMod(position, blockSize, position / blockSize, position % blockSize);
    position / blockSize
  }

  // ---------------------------------------------------------------- the reader

  class RangeFile {
    /** What the server holds; only Request looks at it. */
    const remote: seq<byte>
    const size: nat
    const blockSize: nat
    const budget: nat
    var position: nat
    var downloaded: nat
    /** The files of the cache directory. A file of the wrong length is ignored. */
    var cache: map<nat, seq<byte>>
    /** The blocks that were downloaded, not found in the cache. */
    ghost var fetched: set<nat>

    ghost predicate Valid()
      reads this
    {
      blockSize > 0 && size == |remote| && CacheIsTrue() &&
      (forall n | n in fetched :: Holds(n) && n * blockSize < size && n < size) &&
      downloaded == Total(size, blockSize, fetched, size) && downloaded <= budget
    }

    ghost predicate CacheIsTrue()
      requires size == |remote|
      reads this
    {
      forall n | Holds(n) :: cache[n] == BlockOf(remote, blockSize, n)
    }

    /** The cache has a file of the right length for the block. */
    predicate Holds(number: nat)
      reads this
    {
      number in cache && number * blockSize <= size &&
      |cache[number]| == Min(size, number * blockSize + blockSize) - number * blockSize
    }

    constructor (remote: seq<byte>, cache: map<nat, seq<byte>>, blockSize: nat, budget: nat)
      requires blockSize > 0
      requires forall n | n in cache && n * blockSize <= |remote| ::
                 |cache[n]| == |BlockOf(remote, blockSize, n)| ==> cache[n] == BlockOf(remote, blockSize, n)
      ensures Valid() && this.remote == remote && this.cache == cache && position == 0 && downloaded == 0
      ensures this.blockSize == blockSize && this.budget == budget
    {
      this.remote, this.size, this.blockSize, this.budget := remote, |remote|, blockSize, budget;
      this.cache, this.position, this.downloaded, this.fetched := cache, 0, 0, {};
      new;
      NothingFetched(size, blockSize, size);
    }

    /** Any whence but 0 and 1 counts from the end. */
    method Seek(offset: int, whence: int) returns (result: Result<nat, Error>)
      requires Valid()
      modifies this`position
      ensures Valid()
      ensures var target :=
                if whence == 0 then offset else if whence == 1 then old(position) + offset else size + offset;
              result == (if target < 0 then Failure(NegativeSeek) else Success(target)) &&
              position == if target < 0 then old(position) else target
    {
      var target := if whence == 0 then offset else if whence == 1 then position + offset else size + offset;
      if target < 0 {
        return Failure(NegativeSeek);
      }
      position := target;
      return Success(target);
    }
  
    function Expected(number: nat): int {
      Min(size, number * blockSize + blockSize) - number * blockSize
    }

    /**
     One request. The assumption about the server: a reply that names the exact range and has its exact
     length holds the bytes of the file.
     */
    method Request(number: nat) returns (reply: Reply)
      requires size == |remote| && number * blockSize < size
      ensures reply.Body? && |reply.data| == Expected(number) ==> reply.data == BlockOf(remote, blockSize, number)
    {
      var start := number * blockSize;
      if * {
        reply := Lost;
      } else if * {
        reply := WrongRange;
      } else if * {
        var extra: byte :| true;
        reply := Body(BlockOf(remote, blockSize, number) + [extra]);
      } else {
        var k: nat :| k <= |BlockOf(remote, blockSize, number)|;
        reply := Body(BlockOf(remote, blockSize, number)[..k]);
      }
    }

    /** Writing a cache file can fail and leave a file that is too short. */
    method Write(number: nat, data: seq<byte>) returns (ok: bool)
      modifies this`cache
      ensures ok ==> cache == old(cache)[number := data]
      ensures !ok ==> cache == old(cache) || exists k :: 0 <= k < |data| && cache == old(cache)[number := data[..k]]
    {
      ok := false;
      if * {
        cache := cache[number := data];
        ok := true;
      } else if * {
        if data != [] {
          var k :| 0 <= k < |data|;
          cache := cache[number := data[..k]];
        }
      }
    }

    method WriteBlock(number: nat, data: seq<byte>) returns (ok: bool)
      requires size == |remote| && number * blockSize < size && CacheIsTrue() && !Holds(number)
      requires data == BlockOf(remote, blockSize, number)
      modifies this`cache
      ensures CacheIsTrue() && ok == Holds(number)
      ensures forall n | n != number :: Holds(n) == old(Holds(n))
    {
      ok := Write(number, data);
    }

    /** A successful download, or a write that failed. */
    method Store(number: nat, data: seq<byte>) returns (ok: bool)
      requires Valid() && number * blockSize < size && !Holds(number)
      requires data == BlockOf(remote, blockSize, number) && downloaded + |data| <= budget
      modifies this`cache, this`downloaded, this`fetched
      ensures Valid() && forall n | n != number :: Holds(n) == old(Holds(n))
      ensures ok == Holds(number) && downloaded == old(downloaded) + if ok then |data| else 0
    {
      NumberBound(number, blockSize, size);
      TotalWithout(size, blockSize, fetched, number, size);
      ok := WriteBlock(number, data);
      if ok {
        downloaded := downloaded + |data|;
        fetched := fetched + {number};
      }
    }

    /** The bytes of a block, from the cache or in at most three requests. */
    method Block(number: nat) returns (result: Result<seq<byte>, Error>)
      requires Valid() && number * blockSize < size
      modifies this`cache, this`downloaded, this`fetched
      ensures Valid() && forall n | n != number :: Holds(n) == old(Holds(n))
      ensures forall n | old(Holds(n)) :: Holds(n)
      ensures result.Success? ==> result.value == BlockOf(remote, blockSize, number)
      ensures result.Success? == Holds(number)
      ensures old(Holds(number)) ==> downloaded == old(downloaded)
      ensures !old(Holds(number)) && result.Success? ==> downloaded == old(downloaded) + Expected(number)
      ensures result.Failure? ==> downloaded == old(downloaded)
      ensures result == Failure(BudgetExceeded) <==> !old(Holds(number)) && old(downloaded) + Expected(number) > budget
      ensures result != Failure(NegativeSeek)
    {
      if number in cache && |cache[number]| == Expected(number) {
        return Success(cache[number]);
      }
      if downloaded + Expected(number) > budget {
        return Failure(BudgetExceeded);
      }
      var attempt := 0;
      while attempt < 3
        invariant 0 <= attempt <= 2 && Valid() && !Holds(number) && downloaded == old(downloaded)
        invariant forall n | n != number :: Holds(n) == old(Holds(n))
        decreases 3 - attempt
      {
        var reply := Request(number);
        if reply.WrongRange? || (reply.Body? && |reply.data| != Expected(number)) {
          return Failure(BadRange);
        }
        if reply.Body? {
          var ok := Store(number, reply.data);
          if ok {
            return Success(reply.data);
          }
        }
        if attempt == 2 {
          return Failure(Unreachable);
        }
        attempt := attempt + 1;
      }
      assert false;
    }

    /** One step of a read: as much as one block gives. */
    method Piece(wanted: nat) returns (piece: Result<seq<byte>, Error>)
      requires Valid() && 0 < wanted <= size - position
      modifies this`position, this`cache, this`downloaded, this`fetched
      ensures Valid() && downloaded >= old(downloaded)
      ensures forall n | old(Holds(n)) :: Holds(n)
      ensures piece.Success? ==>
                old(position) < position <= old(position) + wanted && piece.value == remote[old(position)..position] &&
                (position == old(position) + wanted || IsBlockStart(position, blockSize))
      ensures piece.Failure? ==>
                position == old(position) && downloaded == old(downloaded) && !Holds(NumberAt(position, blockSize))
      ensures old(Holds(NumberAt(position, blockSize))) ==> piece.Success? && downloaded == old(downloaded)
      ensures piece == Failure(BudgetExceeded) ==> downloaded + Expected(NumberAt(position, blockSize)) > budget
      ensures piece != Failure(NegativeSeek)
    {
      var number, offset := NumberAt(position, blockSize), position % blockSize;
      DivMod(position, blockSize, number, offset);
      var block := Block(number);
      if block.Failure? {
        return Failure(block.error);
      }
      var count := Min(wanted, |block.value| - offset);
      piece := Success(block.value[offset..offset + count]);
      PieceIsSlice(remote, blockSize, number, offset, count, position);
      NextStart(number, blockSize);
      position := position + count;
    }

    /** How far a read of `count` bytes goes; a negative count means to the end. */
    function ReadEnd(count: int): (end: nat)
      reads this
      ensures end >= position
    {
      if position >= size then position
      else if count < 0 || count > size - position then size
      else position + count
    }

    /**
     Reads exactly the bytes that a plain slice of the file would give, and moves on by their number. A failed read
     loses the blocks before the one that failed: the position stays at the start of that block, or where it was.
     */
    method Read(count: int) returns (result: Result<seq<byte>, Error>)
      requires Valid()
      modifies this`position, this`cache, this`downloaded, this`fetched
      ensures Valid()
      ensures result.Success? ==>
                position == old(ReadEnd(count)) && result.value == SliceOf(remote, old(position), position)
      ensures result.Failure? ==>
                old(position) <= position < old(ReadEnd(count)) && !Holds(NumberAt(position, blockSize)) &&
                (position == old(position) || IsBlockStart(position, blockSize))
      ensures result == Failure(BudgetExceeded) ==> downloaded + Expected(NumberAt(position, blockSize)) > budget
      ensures (forall p | old(position) <= p < old(ReadEnd(count)) :: old(Holds(NumberAt(p, blockSize)))) ==>
                result.Success? && downloaded == old(downloaded)
    {
      var wanted := if count < 0 then size - position else Min(count, size - position);
      if wanted <= 0 {
        return Success([]);
      }
      ghost var start, end := position, position + wanted;
      var bytes := [];
      while wanted > 0
        invariant Valid() && 0 <= wanted && position + wanted == end && start <= position
        invariant bytes == remote[start..position]
        invariant position == start || position == end || IsBlockStart(position, blockSize)
        invariant forall n | old(Holds(n)) :: Holds(n)
        invariant (forall p | start <= p < end :: old(Holds(NumberAt(p, blockSize)))) ==> downloaded == old(downloaded)
      {
        ghost var before := position;
        var piece := Piece(wanted);
        if piece.Failure? {
          return Failure(piece.error);
        }
        wanted := wanted - |piece.value|;
        bytes := bytes + piece.value;
      }
      return Success(bytes);
    }

    /** Fills a buffer from its front; a failed read leaves it as it was. */
    method ReadInto(buffer: array<byte>) returns (result: Result<nat, Error>)
      requires Valid()
      modifies this`position, this`cache, this`downloaded, this`fetched, buffer
      ensures Valid()
      ensures result.Success? ==>
                position == old(ReadEnd(buffer.Length)) && result.value == position - old(position) <= buffer.Length &&
                buffer[..] == SliceOf(remote, old(position), position) + old(buffer[result.value..])
      ensures result.Failure? ==> buffer[..] == old(buffer[..])
    {
      var data := Read(buffer.Length);
      if data.Failure? {
        return Failure(data.error);
      }
      var i := 0;
      while i < |data.value|
        invariant i <= |data.value| <= buffer.Length && Valid() && position == old(ReadEnd(buffer.Length))
        invariant buffer[..i] == data.value[..i] && buffer[i..] == old(buffer[i..])
      {
        buffer[i] := data.value[i];
        i := i + 1;
      }
      return Success(|data.value|);
    }

    /** No block is downloaded twice. */
    lemma NoByteTwice()
      requires Valid()
      ensures downloaded <= size
    {
      TotalFits(size, blockSize, fetched, size);
    }
  }

  /** The bytes from `start` to `end`; nothing if the position is past the end of the file. */
  function SliceOf(remote: seq<byte>, start: nat, end: nat): seq<byte>
    requires start <= end
  {
    if end <= |remote| then remote[start..end] else []
  }

  ghost predicate IsBlockStart(position: nat, blockSize: nat) {
    exists m: nat :: position == m * blockSize
  }

  lemma NextStart(number: nat, blockSize: nat)
    ensures IsBlockStart(number * blockSize + blockSize, blockSize)
  {
    assert number * blockSize + blockSize == (number + 1) * blockSize;
  }

  lemma DivMod(position: nat, blockSize: nat, number: int, offset: int)
    requires blockSize > 0 && number == position / blockSize && offset == position % blockSize
    ensures 0 <= number && 0 <= offset < blockSize && number * blockSize + offset == position
  {
  }

  lemma PieceIsSlice(remote: seq<byte>, blockSize: nat, number: nat, offset: nat, count: nat, position: nat)
    requires number * blockSize + offset == position && number * blockSize <= |remote|
    requires offset + count <= |BlockOf(remote, blockSize, number)|
    ensures position + count <= |remote|
    ensures BlockOf(remote, blockSize, number)[offset..offset + count] == remote[position..position + count]
  {
    SliceOfSlice(remote, number * blockSize, Min(|remote|, number * blockSize + blockSize), offset, count);
  }

  lemma SliceOfSlice(s: seq<byte>, lo: nat, hi: nat, offset: nat, count: nat)
    requires lo <= hi <= |s| && offset + count <= hi - lo
    ensures s[lo..hi][offset..offset + count] == s[lo + offset..lo + offset + count]
  {
    var a, b := s[lo..hi][offset..offset + count], s[lo + offset..lo + offset + count];
    forall k | 0 <= k < count ensures a[k] == b[k] {
    }
  }

  lemma {:induction false} NothingFetched(size: nat, blockSize: nat, k: nat)
    ensures Total(size, blockSize, {}, k) == 0
  {
    if k > 0 {
      NothingFetched(size, blockSize, k - 1);
    }
  }
}
