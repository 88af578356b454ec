/** Finding the range that an address points into, by stepping back over blocks and clusters. */
module AddressSearch {
  import opened AddressMemory
  import opened Lists

  /** `key` is the start of the range at `k`, or inside it. */
  predicate Inside(k: Number, size: nat, key: Number) {
    k == key || k < key < k + size
  }

  /** The last address of the block of `k`. */
  function LastOf(k: nat): nat {
    k - k % BLOCK_SIZE + (BLOCK_SIZE - 1)
  }

  /** The search from `key` gets to the block of `k` before the size limit stops it. */
  predicate Reached(k: Number, key: Number, maxSize: nat) {
    k / BLOCK_SIZE == key / BLOCK_SIZE || key - LastOf(k) <= maxSize
  }

  /** The stored ranges do not overlap and none wraps around the address space. */
  ghost predicate Disjoint<V>(contents: map<Number, V>, size: V -> nat) {
    && (forall a, b :: a in contents && b in contents && a < b ==> a + size(contents[a]) <= b)
    && (forall a :: a in contents ==> a + size(contents[a]) < ADDRESS_SPACE)
  }

  /** No stored key up to `key` lies in a block after the one of `num`. */
  ghost predicate NoneAbove<V>(contents: map<Number, V>, key: Number, num: Number) {
    forall k :: k in contents && k <= key ==> k / BLOCK_SIZE <= num / BLOCK_SIZE
  }

  /** Where the search stands: in the block of the key, or at the end of an earlier one
      that the size limit allows. */
  ghost predicate At(key: Number, num: Number, maxSize: nat) {
    num <= key && (num == key || (num % BLOCK_SIZE == BLOCK_SIZE - 1 && key - num <= maxSize && num / BLOCK_SIZE < key / BLOCK_SIZE))
  }

  /** The answer: the range the key points into, when the search gets that far. */
  ghost predicate Answer<V>(contents: map<Number, V>, size: V -> nat, maxSize: nat, key: Number, found: bool, res: Number) {
    && (found ==> res in contents && Inside(res, size(contents[res]), key))
    && (forall k :: k in contents && Inside(k, size(contents[k]), key) ==> (found && res == k <==> Reached(k, key, maxSize)))
  }

  lemma ClusterOfBlock(a: nat)
    ensures a / CLUSTER_SIZE == a / BLOCK_SIZE / CLUSTER_BLOCKS
  {
  }

  lemma PlaceIsBlock(a: nat, b: nat)
    ensures PlaceOf(a) == PlaceOf(b) <==> a / BLOCK_SIZE == b / BLOCK_SIZE
  {
    ClusterOfBlock(a);
    ClusterOfBlock(b);
  }

  /** Stepping to the last address of the previous block or cluster: setting the low bits,
      then subtracting the unit. */
  function StepBack(num: Number, unit: nat): (r: Number)
    requires 0 < unit <= num
    ensures r < num
  {
    (num - num % unit + (unit - 1)) - unit
  }

  /** The cluster of `num` holds no key up to `key` in or before the block of `num`. */
  ghost predicate NoneHere<V>(contents: map<Number, V>, key: Number, num: Number) {
    forall k :: k in contents && k <= key && k / BLOCK_SIZE <= num / BLOCK_SIZE ==> ClusterId(k) != ClusterId(num)
  }

  lemma SearchStart<V>(contents: map<Number, V>, key: Number, maxSize: nat)
    ensures NoneAbove(contents, key, key) && At(key, key, maxSize)
  {
  }

  /** The first block of a cluster has none before it. */
  lemma FirstBlock<V>(contents: map<Number, V>, key: Number, num: Number)
    requires BlockId(num) == 0 && forall k :: k in contents && k <= key ==> k / BLOCK_SIZE != num / BLOCK_SIZE
    ensures NoneHere(contents, key, num)
  {
    forall k | k in contents && k <= key && k / BLOCK_SIZE <= num / BLOCK_SIZE ensures ClusterId(k) != ClusterId(num) {
      ClusterOfBlock(k);
      ClusterOfBlock(num);
    }
  }

  /** A block without a smaller key: the search may go on at the previous block. */
  lemma BlockPassed<V>(contents: map<Number, V>, key: Number, num: Number, maxSize: nat)
    requires NoneAbove(contents, key, num) && At(key, num, maxSize) && BLOCK_SIZE <= num
    requires forall k :: k in contents && k <= key ==> k / BLOCK_SIZE != num / BLOCK_SIZE
    ensures NoneAbove(contents, key, StepBack(num, BLOCK_SIZE))
    ensures At(key, StepBack(num, BLOCK_SIZE), maxSize) <==> key - StepBack(num, BLOCK_SIZE) <= maxSize
  {
  }

  /** A cluster without a smaller key in or before the block of `num`. */
  lemma ClusterPassed<V>(contents: map<Number, V>, key: Number, num: Number, maxSize: nat)
    requires NoneAbove(contents, key, num) && At(key, num, maxSize) && CLUSTER_SIZE <= num && NoneHere(contents, key, num)
    ensures NoneAbove(contents, key, StepBack(num, CLUSTER_SIZE)) && StepBack(num, CLUSTER_SIZE) % BLOCK_SIZE == BLOCK_SIZE - 1
    ensures At(key, StepBack(num, CLUSTER_SIZE), maxSize) <==> key - StepBack(num, CLUSTER_SIZE) <= maxSize
  {
    var r := StepBack(num, CLUSTER_SIZE);
    assert r % BLOCK_SIZE == BLOCK_SIZE - 1 && r / BLOCK_SIZE < num / BLOCK_SIZE;
    forall k | k in contents && k <= key ensures k / BLOCK_SIZE <= r / BLOCK_SIZE {
      ClusterOfBlock(k);
      ClusterOfBlock(num);
    }
  }

  /** Stopping at the size limit leaves no range within reach. */
  lemma Stopped<V>(contents: map<Number, V>, size: V -> nat, maxSize: nat, key: Number, num: Number)
    requires NoneAbove(contents, key, num) && num % BLOCK_SIZE == BLOCK_SIZE - 1 && key - num > maxSize
    ensures Answer(contents, size, maxSize, key, false, 0)
  {
    forall k | k in contents && Inside(k, size(contents[k]), key) ensures !Reached(k, key, maxSize) {
      assert LastOf(k) <= num;
      assert k / BLOCK_SIZE <= num / BLOCK_SIZE < key / BLOCK_SIZE;
    }
  }

  /** A range in the current block that the key points into is the answer. */
  lemma Found<V>(contents: map<Number, V>, size: V -> nat, maxSize: nat, key: Number, num: Number, res: Number)
    requires Disjoint(contents, size) && At(key, num, maxSize)
    requires res in contents && Inside(res, size(contents[res]), key) && res / BLOCK_SIZE == num / BLOCK_SIZE
    ensures Answer(contents, size, maxSize, key, true, res)
  {
    assert Reached(res, key, maxSize);
    forall k | k in contents && Inside(k, size(contents[k]), key) ensures k == res {
    }
  }

  /** A smaller key in the current block whose range does not hold the key rules out all
      earlier blocks. */
  lemma Covered<V>(contents: map<Number, V>, size: V -> nat, maxSize: nat, key: Number, num: Number, w: Number)
    requires Disjoint(contents, size) && NoneAbove(contents, key, num)
    requires w in contents && w <= key && w / BLOCK_SIZE == num / BLOCK_SIZE
    requires forall k :: k in contents && k / BLOCK_SIZE == num / BLOCK_SIZE ==> !Inside(k, size(contents[k]), key)
    ensures Answer(contents, size, maxSize, key, false, 0)
  {
    forall k | k in contents ensures !Inside(k, size(contents[k]), key) {
    }
  }

  /** The first cluster has none before it. */
  lemma FirstCluster<V>(contents: map<Number, V>, size: V -> nat, maxSize: nat, key: Number, num: Number)
    requires NoneAbove(contents, key, num) && NoneHere(contents, key, num) && num < CLUSTER_SIZE
    ensures Answer(contents, size, maxSize, key, false, 0)
  {
    forall k | k in contents ensures k > key {
      ClusterOfBlock(k);
    }
  }

  /** The block before a block that is not the first is in the same cluster. */
  lemma SameCluster(num: Number)
    requires BlockId(num) != 0
    ensures BLOCK_SIZE <= num && ClusterId(StepBack(num, BLOCK_SIZE)) == ClusterId(num)
  {
    var r := num - num % BLOCK_SIZE - 1;
    ClusterOfBlock(r);
    ClusterOfBlock(num);
  }

  /** A range that starts at most `maxSize` before the key is always reached; in particular
      when no stored range is larger than `maxSize`. */
  lemma CloseReached<V>(contents: map<Number, V>, size: V -> nat, maxSize: nat, key: Number, found: bool, res: Number, k: Number)
    requires Answer(contents, size, maxSize, key, found, res)
    requires k in contents && Inside(k, size(contents[k]), key)
    requires key - k <= maxSize || size(contents[k]) <= maxSize
    ensures found && res == k
  {
    assert LastOf(k) >= k;
    assert Reached(k, key, maxSize);
  }
}
