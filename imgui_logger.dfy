/**
 * `circe::HLogger` (circe/ui/imgui_logger.cpp): a fixed-capacity ring of the
 * most recent log messages, and the colour each message is drawn in. Only
 * the four severity bits of a message's logging options are modelled.
 */
module ImGuiLogger {
  import opened Wrappers

  /** The severity bits of `hermes::logging_options` that the logger tests. */
  datatype LogOptions = LogOptions(info: bool, warn: bool, error: bool, critical: bool)

  /** One cache entry. */
  datatype CachedMessage = CachedMessage(message: string, options: LogOptions)

  /** The value-initialised entry that resizing the cache fills in. */
  const EMPTY_MESSAGE: CachedMessage := CachedMessage("", LogOptions(false, false, false, false))

  /** The capacity the constructor sets. */
  const DEFAULT_MAX_LOG_COUNT: nat := 10

  const WHITE: Color := Color(1.0, 1.0, 1.0, 1.0)
  const YELLOW: Color := Color(1.0, 1.0, 0.0, 1.0)
  const RED: Color := Color(1.0, 0.0, 0.0, 1.0)

  /**
   * The slot `k` messages before the most recent one, in a ring of `size`
   * slots whose next write goes to `next`.
   */
  function Back(next: nat, size: nat, k: nat): (slot: nat)
    requires k < size && next <= size
    ensures slot < size
  {
    if k < next then next - 1 - k else next + size - 1 - k
  }

  /** The next write position after writing to slot `s`. */
  function Advance(s: nat, size: nat): nat
    requires s < size
  {
    if s + 1 == size then 0 else s + 1
  }

  /** `Advance` is the increment modulo the ring size. */
  lemma AdvanceIsIncrementMod(s: nat, size: nat)
    requires s < size
    ensures (s + 1) % size == Advance(s, size)
  {
    if s + 1 == size {
      DivModUnique(s + 1, size, 1, 0);
    } else {
      DivModUnique(s + 1, size, 0, s + 1);
    }
  }

  /**
   * After a write to slot `s` the newest message is at `s`, and every older
   * message is one step further back, never at `s`.
   */
  lemma BackAfterWrite(s: nat, size: nat, k: nat)
    requires s < size && k < size
    ensures k == 0 ==> Back(Advance(s, size), size, k) == s
    ensures k > 0 ==> Back(Advance(s, size), size, k) == Back(s, size, k - 1) != s
  {
  }

  /**
   * The ring: the next index lies within the capacity (strictly, once a
   * message was stored), and slot `Back(next, size, k)` holds the message
   * logged `k` before the latest, for the last `size` messages.
   */
  ghost predicate Ring(cache: seq<CachedMessage>, recent: seq<CachedMessage>, next: nat, size: nat)
    requires |cache| == size
  {
    && next <= size
    && (recent != [] ==> next < size)
    && forall k :: 0 <= k < |recent| && k < size ==> cache[Back(next, size, k)] == recent[|recent| - 1 - k]
  }

  /** Writing the newest message at the next index and advancing it keeps the ring. */
  lemma RingAfterWrite(cache: seq<CachedMessage>, recent: seq<CachedMessage>, s: nat, size: nat, message: CachedMessage)
    requires |cache| == size && s < size && Ring(cache, recent, s, size)
    ensures Ring(cache[s := message], recent + [message], Advance(s, size), size)
  {
    var cache', recent' := cache[s := message], recent + [message];
    forall k | 0 <= k < |recent'| && k < size
      ensures cache'[Back(Advance(s, size), size, k)] == recent'[|recent'| - 1 - k]
    {
      BackAfterWrite(s, size, k);
      if k > 0 {
        assert cache[Back(s, size, k - 1)] == recent[|recent| - 1 - (k - 1)];
      }
    }
  }

  class HLogger {
    var enabled: bool
    var loggedMessagesCount: nat
    var nextCacheIndex: nat
    var maxCacheSize: nat
    var cache: seq<CachedMessage>
    var infoColor: Color
    var warnColor: Color
    var errorColor: Color
    var criticalColor: Color
    /** The messages logged since the capacity was last set, oldest first. */
    ghost var recent: seq<CachedMessage>

    /** The cache is as long as its capacity. */
    ghost predicate Valid()
      reads this
    {
      |cache| == maxCacheSize
    }

    /** The ring property of the cache, the messages logged since the capacity was set, and the next index. */
    ghost predicate RingHolds()
      reads this
      requires Valid()
    {
      Ring(cache, recent, nextCacheIndex, maxCacheSize)
    }

    /** Enabled, with ten empty slots, white info and yellow warnings, red errors. */
    constructor ()
      ensures Valid() && RingHolds()
      ensures enabled && loggedMessagesCount == 0 && nextCacheIndex == 0
      ensures maxCacheSize == DEFAULT_MAX_LOG_COUNT && cache == seq(DEFAULT_MAX_LOG_COUNT, _ => EMPTY_MESSAGE)
      ensures infoColor == WHITE && warnColor == YELLOW && errorColor == RED && criticalColor == RED
    {
      enabled, loggedMessagesCount, nextCacheIndex := true, 0, 0;
      infoColor, warnColor, errorColor, criticalColor := WHITE, YELLOW, RED, RED;
      maxCacheSize := DEFAULT_MAX_LOG_COUNT;
      cache := seq(DEFAULT_MAX_LOG_COUNT, _ => EMPTY_MESSAGE);
      recent := [];
    }

    /**
     * `setMaxLogCount`, as written: capacity and cache length both become
     * `m`, keeping the entries that fit and padding with empty ones, and the
     * next index is left as it was. The ring can be used again only when
     * that index is not beyond the new capacity; otherwise the next
     * `logMessage` writes past the end of the cache.
     */
    method SetMaxLogCountAsWritten(m: nat)
      modifies this`maxCacheSize, this`cache, this`recent
      ensures Valid() && maxCacheSize == m
      ensures cache == if m <= |old(cache)| then old(cache)[..m]
                       else old(cache) + seq(m - |old(cache)|, _ => EMPTY_MESSAGE)
      ensures recent == []
      ensures RingHolds() <==> nextCacheIndex <= m
    {
      maxCacheSize := m;
      ResizeCache(m);
      recent := [];
    }

    /**
     * `setMaxLogCount`, corrected: as written, but a next index beyond the
     * new capacity is clamped to it, so the next message wraps to slot 0 and
     * the ring always holds afterwards.
     */
    method SetMaxLogCount(m: nat)
      modifies this`maxCacheSize, this`cache, this`recent, this`nextCacheIndex
      ensures Valid() && RingHolds() && maxCacheSize == m
      ensures cache == if m <= |old(cache)| then old(cache)[..m]
                       else old(cache) + seq(m - |old(cache)|, _ => EMPTY_MESSAGE)
      ensures recent == []
      ensures nextCacheIndex == if old(nextCacheIndex) <= m then old(nextCacheIndex) else m
    {
      maxCacheSize := m;
      ResizeCache(m);
      recent := [];
      if nextCacheIndex > m {
        nextCacheIndex := m;
      }
    }

    /** `cache_.resize(m)`: keeps the entries that fit and pads with empty ones. */
    method ResizeCache(m: nat)
      modifies this`cache
      ensures cache == if m <= |old(cache)| then old(cache)[..m]
                       else old(cache) + seq(m - |old(cache)|, _ => EMPTY_MESSAGE)
    {
      if m <= |cache| {
        cache := cache[..m];
      } else {
        cache := cache + seq(m - |cache|, _ => EMPTY_MESSAGE);
      }
    }

    /**
     * `logMessage`: nothing happens while disabled or with no slots. Otherwise
     * the count goes up by one, the message is written at the next index
     * (wrapping to slot 0 once the index reached the end), and the next index
     * advances modulo the capacity, so a full cache overwrites its oldest
     * message.
     */
    method LogMessage(m: string, options: LogOptions)
      requires Valid() && (cache != [] ==> RingHolds())
      modifies this`loggedMessagesCount, this`nextCacheIndex, this`cache, this`recent
      ensures Valid() && (cache != [] ==> RingHolds())
      ensures !old(enabled) || old(cache) == [] ==>
        && cache == old(cache) && nextCacheIndex == old(nextCacheIndex)
        && loggedMessagesCount == old(loggedMessagesCount) && recent == old(recent)
      ensures old(enabled) && old(cache) != [] ==>
        var slot := if old(nextCacheIndex) == |old(cache)| then 0 else old(nextCacheIndex);
        && loggedMessagesCount == old(loggedMessagesCount) + 1
        && slot < |cache|
        && cache == old(cache)[slot := CachedMessage(m, options)]
        && nextCacheIndex == (slot + 1) % maxCacheSize
        && recent == old(recent) + [CachedMessage(m, options)]
    {
      if !enabled || cache == [] {
        return;
      }
      loggedMessagesCount := loggedMessagesCount + 1;
      if nextCacheIndex == |cache| {
        if |cache| < maxCacheSize {
          assert false;
        } else {
          nextCacheIndex := 0;
        }
      }
      var s := nextCacheIndex;
      RingAfterWrite(cache, recent, s, maxCacheSize, CachedMessage(m, options));
      cache := cache[s := CachedMessage(m, options)];
      AdvanceIsIncrementMod(s, maxCacheSize);
      nextCacheIndex := (s + 1) % maxCacheSize;
      recent := recent + [CachedMessage(m, options)];
    }

    method Enable()
      modifies this`enabled
      ensures enabled
    {
      enabled := true;
    }

    method Disable()
      modifies this`enabled
      ensures !enabled
    {
      enabled := false;
    }

    /**
     * `colorFrom`: the first of info, warn, error, critical whose bit is set
     * picks the colour; with none set it is the info colour.
     */
    function ColorFrom(options: LogOptions): (c: Color)
      reads this
      ensures options.info ==> c == infoColor
      ensures !options.info && options.warn ==> c == warnColor
      ensures !options.info && !options.warn && options.error ==> c == errorColor
      ensures !options.info && !options.warn && !options.error && options.critical ==> c == criticalColor
      ensures !options.info && !options.warn && !options.error && !options.critical ==> c == infoColor
    {
      if options.info then infoColor
      else if options.warn then warnColor
      else if options.error then errorColor
      else if options.critical then criticalColor
      else infoColor
    }
  }

  /**
   * As written, shrinking the capacity below the next index leaves that
   * index beyond the cache: with the default capacity of 10, seven messages
   * and then a capacity of 3, the next `logMessage` would write slot 7 of a
   * three-slot cache.
   */
  method ShrinkLeavesIndexBeyondCache() returns (logger: HLogger)
    ensures logger.Valid() && logger.enabled && |logger.cache| == 3
    ensures logger.nextCacheIndex == 7 && logger.nextCacheIndex != |logger.cache|
    ensures !logger.RingHolds()
  {
    logger := new HLogger();
    var info := LogOptions(true, false, false, false);
    var n := 0;
    while n < 7
      invariant 0 <= n <= 7
      invariant logger.Valid() && logger.RingHolds() && logger.enabled && logger.maxCacheSize == 10
      invariant logger.nextCacheIndex == n
    {
      logger.LogMessage("m", info);
      n := n + 1;
    }
    logger.SetMaxLogCountAsWritten(3);
  }

  /** Corrected, the same sequence clamps the index to the new capacity and the ring holds. */
  method ShrinkClampsIndex() returns (logger: HLogger)
    ensures logger.Valid() && logger.RingHolds() && |logger.cache| == 3 && logger.nextCacheIndex == 3
  {
    logger := new HLogger();
    var info := LogOptions(true, false, false, false);
    var n := 0;
    while n < 7
      invariant 0 <= n <= 7
      invariant logger.Valid() && logger.RingHolds() && logger.enabled && logger.maxCacheSize == 10
      invariant logger.nextCacheIndex == n
    {
      logger.LogMessage("m", info);
      n := n + 1;
    }
    logger.SetMaxLogCount(3);
  }

  /**
   * Logging into a full ring of capacity `n` replaces the oldest entry: after
   * `n` + 1 messages the first one is gone and the newest sits where it was.
   */
  method OldestOverwrittenOnceFull() returns (logger: HLogger)
    ensures logger.Valid() && logger.maxCacheSize == 2
    ensures logger.cache == [CachedMessage("c", LogOptions(true, false, false, false)), CachedMessage("b", LogOptions(true, false, false, false))]
    ensures logger.nextCacheIndex == 1 && logger.loggedMessagesCount == 3
  {
    logger := new HLogger();
    logger.SetMaxLogCount(2);
    var info := LogOptions(true, false, false, false);
    logger.LogMessage("a", info);
    logger.LogMessage("b", info);
    logger.LogMessage("c", info);
  }
}
