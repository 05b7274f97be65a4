/**
 * The message table: one message per (code, language tag) pair, the pair
 * being unique. Lookups are counted so that "the table was not consulted"
 * can be stated.
 */
module MessageStore {
  import opened Wrappers

  type MessageKey = (string, string)   // (code, BCP 47 language tag)

  class I18nMessageRepository {
    var messages: map<MessageKey, string>
    var lookups: nat

    constructor (messages: map<MessageKey, string>)
      ensures this.messages == messages && lookups == 0
    {
      this.messages := messages;
      lookups := 0;
    }

    /** findByCodeAndLocale: the stored message of the pair, if any. */
    method FindByCodeAndLocale(code: string, tag: string) returns (r: Option<string>)
      modifies this`lookups
      ensures (code, tag) in messages ==> r == Some(messages[(code, tag)])
      ensures (code, tag) !in messages ==> r.None?
      ensures lookups == old(lookups) + 1
    {
      lookups := lookups + 1;
      r := if (code, tag) in messages then Some(messages[(code, tag)]) else None;
    }

    /** existsByCodeAndLocale. */
    predicate ExistsByCodeAndLocale(code: string, tag: string)
      reads this
    {
      (code, tag) in messages
    }

    /** save of a new message: the pair must not be stored yet (the unique constraint). */
    method Save(code: string, tag: string, message: string)
      requires (code, tag) !in messages
      modifies this`messages
      ensures messages == old(messages)[(code, tag) := message]
      ensures |messages.Keys| == |old(messages).Keys| + 1
    {
      assert messages[(code, tag) := message].Keys == messages.Keys + {(code, tag)};
      messages := messages[(code, tag) := message];
    }
  }
}

/**
 * The database message source: a look-aside cache in front of the message
 * table. A miss loads the stored message, or a marker when there is none, so
 * an absent message is not looked up again; a cached marker means "not here,
 * ask the next source".
 */
module MessageResolution {
  import opened Wrappers
  import opened MessageStore
  import JavaStrings

  const CacheName := "i18n_messages"
  const NullPlaceholder := "@@I18N_NULL@@"
  const KeySeparator := '|'

  /** The exception thrown at construction when the cache is not configured. */
  datatype ConfigError = CacheNotFound(message: string)

  const CacheNotFoundMessage := "❌ Cache Config Error: '" + CacheName + "' cache is not found."

  /** A MessageFormat: the pattern and the locale it formats for. */
  datatype MessageFormat = MessageFormat(pattern: string, tag: string)

  /** A language tag in the BCP 47 alphabet: ASCII letters, digits and hyphens. */
  predicate LanguageTag(tag: string) {
    forall i :: 0 <= i < |tag| ==> ('a' <= tag[i] <= 'z') || ('A' <= tag[i] <= 'Z') || ('0' <= tag[i] <= '9') || tag[i] == '-'
  }

  /** The cache key of a (code, locale) pair, the same in lookup and eviction. */
  function CacheKey(code: string, tag: string): (k: string)
    ensures |k| == |code| + 1 + |tag|
    ensures k[..|code|] == code && k[|code|] == KeySeparator && k[|code| + 1..] == tag
  {
    JavaStrings.Joined(code, KeySeparator, tag)
  }

  /**
   * Two pairs share a cache key only when they are the same pair: a tag
   * holds no separator, so the key's last separator splits it back, even for
   * codes that contain one.
   */
  lemma CacheKeyInjective(code1: string, tag1: string, code2: string, tag2: string)
    requires LanguageTag(tag1) && LanguageTag(tag2)
    requires CacheKey(code1, tag1) == CacheKey(code2, tag2)
    ensures code1 == code2 && tag1 == tag2
  {
    JavaStrings.JoinedInjectiveRight(code1, tag1, code2, tag2, KeySeparator);
  }

  /** What a miss puts in the cache: the stored message, or the marker. */
  function Loaded(messages: map<MessageKey, string>, code: string, tag: string): string {
    if (code, tag) in messages then messages[(code, tag)] else NullPlaceholder
  }

  /** What resolveCode returns for a cached value: none for the marker, else a formatter of it. */
  function Interpret(cached: string, tag: string): (r: Option<MessageFormat>)
    ensures r.None? <==> cached == NullPlaceholder
    ensures r.Some? ==> r.value == MessageFormat(cached, tag)
  {
    if cached == NullPlaceholder then None else Some(MessageFormat(cached, tag))
  }

  class DatabaseMessageSource {
    const repository: I18nMessageRepository
    /** The "i18n_messages" cache. */
    var cache: map<string, string>

    constructor (repository: I18nMessageRepository, cache: map<string, string>)
      ensures this.repository == repository && this.cache == cache
    {
      this.repository := repository;
      this.cache := cache;
    }

    /**
     * resolveCode: a hit answers from the cache without consulting the table;
     * a miss consults the table once and caches what it found, or the marker.
     * The answer is a formatter of the cached string, or none (the next
     * source is asked) for the marker.
     */
    method ResolveCode(code: string, tag: string) returns (r: Option<MessageFormat>)
      modifies this, repository`lookups
      ensures var key := CacheKey(code, tag);
              if key in old(cache) then
                cache == old(cache) && repository.lookups == old(repository.lookups)
                && r == Interpret(old(cache)[key], tag)
              else
                cache == old(cache)[key := Loaded(repository.messages, code, tag)]
                && repository.lookups == old(repository.lookups) + 1
                && r == Interpret(Loaded(repository.messages, code, tag), tag)
    {
      var key := CacheKey(code, tag);
      var cached: string;
      if key in cache {
        cached := cache[key];
      } else {
        var found := repository.FindByCodeAndLocale(code, tag);
        cached := if found.Some? then found.value else NullPlaceholder;
        cache := cache[key := cached];
      }
      r := Interpret(cached, tag);
    }

    /** clearCache: only that pair's entry is evicted. */
    method ClearCache(code: string, tag: string)
      modifies this
      ensures cache == old(cache) - {CacheKey(code, tag)}
    {
      cache := cache - {CacheKey(code, tag)};
    }
  }

  /**
   * The constructor's fail-fast check: the source is built, with the
   * configured cache, exactly when a cache of that name exists.
   */
  method Create(repository: I18nMessageRepository, caches: map<string, map<string, string>>)
    returns (r: Result<DatabaseMessageSource, ConfigError>)
    ensures r.Ok? <==> CacheName in caches
    ensures r.Err? ==> r.error == CacheNotFound(CacheNotFoundMessage)
    ensures r.Ok? ==> fresh(r.value) && r.value.repository == repository && r.value.cache == caches[CacheName]
  {
    if CacheName !in caches {
      return Err(CacheNotFound(CacheNotFoundMessage));
    }
    var source := new DatabaseMessageSource(repository, caches[CacheName]);
    r := Ok(source);
  }

  /**
   * Evicting one pair keeps every other pair's entry: for language tags, a
   * different pair has a different key.
   */
  lemma EvictionKeepsOtherPairs(cache: map<string, string>, code: string, tag: string, otherCode: string, otherTag: string)
    requires LanguageTag(tag) && LanguageTag(otherTag) && (otherCode, otherTag) != (code, tag)
    ensures CacheKey(otherCode, otherTag) in cache - {CacheKey(code, tag)} <==> CacheKey(otherCode, otherTag) in cache
  {
    if CacheKey(otherCode, otherTag) == CacheKey(code, tag) {
      CacheKeyInjective(otherCode, otherTag, code, tag);
    }
  }

  /**
   * The marker is a real message text too: a stored message equal to it is
   * answered as absent, like a missing one.
   */
  lemma StoredMarkerReadsAsAbsent(messages: map<MessageKey, string>, code: string, tag: string)
    requires (code, tag) in messages && messages[(code, tag)] == NullPlaceholder
    ensures Interpret(Loaded(messages, code, tag), tag).None?
    ensures Interpret(Loaded(messages - {(code, tag)}, code, tag), tag).None?
  {
  }
}

/**
 * The start-up synchronisation of the message files into the table: for
 * each target locale with a bundle, every bundle key missing from the table
 * is inserted with the file's message; stored messages are never
 * overwritten.
 */
module MessageSync {
  import opened Wrappers
  import opened MessageStore

  /** Korean, English, Japanese and Chinese, as their language tags. */
  const TargetLocales: seq<string> := ["ko", "en", "ja", "zh"]

  /** A bundle: its (code, message) pairs in enumeration order. */
  type Bundle = seq<(string, string)>

  /** The table after the inner loop over one bundle's first entries. */
  function SyncKeys(m: map<MessageKey, string>, tag: string, entries: Bundle): map<MessageKey, string>
    decreases |entries|
  {
    if entries == [] then m
    else
      var before := SyncKeys(m, tag, entries[..|entries| - 1]);
      var e := entries[|entries| - 1];
      if (e.0, tag) in before then before else before[(e.0, tag) := e.1]
  }

  /** The table after the outer loop over the first locales; a locale with no bundle is skipped. */
  function SyncAll(m: map<MessageKey, string>, bundles: map<string, Bundle>, locales: seq<string>): map<MessageKey, string>
    decreases |locales|
  {
    if locales == [] then m
    else
      var before := SyncAll(m, bundles, locales[..|locales| - 1]);
      var tag := locales[|locales| - 1];
      if tag in bundles then SyncKeys(before, tag, bundles[tag]) else before
  }

  /** Every bundle key of every listed locale that has a bundle is in the table. */
  ghost predicate Covers(m: map<MessageKey, string>, bundles: map<string, Bundle>, locales: seq<string>) {
    forall i, j :: 0 <= i < |locales| && locales[i] in bundles && 0 <= j < |bundles[locales[i]]| ==>
      (bundles[locales[i]][j].0, locales[i]) in m
  }

  /** Stored messages stay as they are. */
  ghost predicate Keeps(before: map<MessageKey, string>, after: map<MessageKey, string>) {
    forall k :: k in before ==> k in after && after[k] == before[k]
  }

  lemma {:induction false} SyncKeysKeeps(m: map<MessageKey, string>, tag: string, entries: Bundle)
    ensures Keeps(m, SyncKeys(m, tag, entries))
    decreases |entries|
  {
    if entries != [] {
      SyncKeysKeeps(m, tag, entries[..|entries| - 1]);
    }
  }

  lemma {:induction false} SyncKeysCovers(m: map<MessageKey, string>, tag: string, entries: Bundle)
    ensures forall j :: 0 <= j < |entries| ==> (entries[j].0, tag) in SyncKeys(m, tag, entries)
    decreases |entries|
  {
    if entries != [] {
      var init := entries[..|entries| - 1];
      SyncKeysCovers(m, tag, init);
      assert forall j :: 0 <= j < |init| ==> init[j] == entries[j];
    }
  }

  /** With every key already stored, a bundle changes nothing. */
  lemma {:induction false} SyncKeysNoop(m: map<MessageKey, string>, tag: string, entries: Bundle)
    requires forall j :: 0 <= j < |entries| ==> (entries[j].0, tag) in m
    ensures SyncKeys(m, tag, entries) == m
    decreases |entries|
  {
    if entries != [] {
      var init := entries[..|entries| - 1];
      assert forall j :: 0 <= j < |init| ==> init[j] == entries[j];
      SyncKeysNoop(m, tag, init);
    }
  }

  /** Only keys of the bundle, under its tag, are added. */
  lemma {:induction false} SyncKeysOnlyBundle(m: map<MessageKey, string>, tag: string, entries: Bundle, k: MessageKey)
    requires k in SyncKeys(m, tag, entries) && k !in m
    ensures k.1 == tag && exists j :: 0 <= j < |entries| && entries[j].0 == k.0
    decreases |entries|
  {
    var init := entries[..|entries| - 1];
    if k in SyncKeys(m, tag, init) {
      SyncKeysOnlyBundle(m, tag, init, k);
      var j :| 0 <= j < |init| && init[j].0 == k.0;
      assert entries[j] == init[j];
    } else {
      assert entries[|entries| - 1].0 == k.0;
    }
  }

  /** The synchronisation keeps every stored message. */
  lemma {:induction false} SyncAllKeeps(m: map<MessageKey, string>, bundles: map<string, Bundle>, locales: seq<string>)
    ensures Keeps(m, SyncAll(m, bundles, locales))
    decreases |locales|
  {
    if locales != [] {
      var init := locales[..|locales| - 1];
      SyncAllKeeps(m, bundles, init);
      var tag := locales[|locales| - 1];
      if tag in bundles {
        SyncKeysKeeps(SyncAll(m, bundles, init), tag, bundles[tag]);
      }
    }
  }

  /** After the synchronisation every bundle key of every locale with a bundle is stored. */
  lemma {:induction false} SyncAllCovers(m: map<MessageKey, string>, bundles: map<string, Bundle>, locales: seq<string>)
    ensures Covers(SyncAll(m, bundles, locales), bundles, locales)
    decreases |locales|
  {
    if locales != [] {
      var init := locales[..|locales| - 1];
      var tag := locales[|locales| - 1];
      var before := SyncAll(m, bundles, init);
      SyncAllCovers(m, bundles, init);
      var after := SyncAll(m, bundles, locales);
      if tag in bundles {
        SyncKeysKeeps(before, tag, bundles[tag]);
        SyncKeysCovers(before, tag, bundles[tag]);
      }
      forall i, j | 0 <= i < |locales| && locales[i] in bundles && 0 <= j < |bundles[locales[i]]|
        ensures (bundles[locales[i]][j].0, locales[i]) in after
      {
        if i < |init| {
          assert init[i] == locales[i];
        }
      }
    }
  }

  /** On a table that already holds every key, the synchronisation changes nothing. */
  lemma {:induction false} SyncAllNoop(m: map<MessageKey, string>, bundles: map<string, Bundle>, locales: seq<string>)
    requires Covers(m, bundles, locales)
    ensures SyncAll(m, bundles, locales) == m
    decreases |locales|
  {
    if locales != [] {
      var init := locales[..|locales| - 1];
      var tag := locales[|locales| - 1];
      assert Covers(m, bundles, init) by {
        forall i, j | 0 <= i < |init| && init[i] in bundles && 0 <= j < |bundles[init[i]]|
          ensures (bundles[init[i]][j].0, init[i]) in m
        {
          assert init[i] == locales[i];
        }
      }
      SyncAllNoop(m, bundles, init);
      if tag in bundles {
        SyncKeysNoop(m, tag, bundles[tag]);
      }
    }
  }

  /** Running the synchronisation a second time with the same bundles inserts nothing. */
  lemma SecondRunInsertsNothing(m: map<MessageKey, string>, bundles: map<string, Bundle>, locales: seq<string>)
    ensures SyncAll(SyncAll(m, bundles, locales), bundles, locales) == SyncAll(m, bundles, locales)
  {
    SyncAllCovers(m, bundles, locales);
    SyncAllNoop(SyncAll(m, bundles, locales), bundles, locales);
  }

  /**
   * The message the administrator stored is the one kept: the file's text
   * for the same pair does not replace it.
   */
  lemma EditedMessageSurvives(m: map<MessageKey, string>, bundles: map<string, Bundle>, code: string, tag: string)
    requires (code, tag) in m
    ensures (code, tag) in SyncAll(m, bundles, TargetLocales)
    ensures SyncAll(m, bundles, TargetLocales)[(code, tag)] == m[(code, tag)]
  {
    SyncAllKeeps(m, bundles, TargetLocales);
  }

  class MessageDataInitializer {
    const repository: I18nMessageRepository

    constructor (repository: I18nMessageRepository)
      ensures this.repository == repository
    {
      this.repository := repository;
    }

    /**
     * The inner loop over one locale's bundle keys: a pair not yet stored is
     * saved and counted, a stored one is left alone.
     */
    method SyncLocale(tag: string, entries: Bundle) returns (added: nat)
      modifies repository`messages
      ensures repository.messages == SyncKeys(old(repository.messages), tag, entries)
      ensures added + |old(repository.messages).Keys| == |repository.messages.Keys|
    {
      added := 0;
      var j := 0;
      while j < |entries|
        invariant 0 <= j <= |entries|
        invariant repository.messages == SyncKeys(old(repository.messages), tag, entries[..j])
        invariant added + |old(repository.messages).Keys| == |repository.messages.Keys|
      {
        var code := entries[j].0;
        var message := entries[j].1;
        assert entries[..j + 1][..j] == entries[..j];
        if !repository.ExistsByCodeAndLocale(code, tag) {
          repository.Save(code, tag, message);
          added := added + 1;
        }
        j := j + 1;
      }
      assert entries[..|entries|] == entries;
    }

    /**
     * run: the loop over the target locales, each locale's keys synchronised
     * by the inner loop.
     * The table becomes the synchronised table, and the count of added
     * messages is the number of pairs it gained.
     */
    method Run(bundles: map<string, Bundle>) returns (totalAdded: nat)
      modifies repository`messages
      ensures repository.messages == SyncAll(old(repository.messages), bundles, TargetLocales)
      ensures totalAdded == |repository.messages.Keys| - |old(repository.messages).Keys|
    {
      totalAdded := 0;
      var i := 0;
      while i < |TargetLocales|
        invariant 0 <= i <= |TargetLocales|
        invariant repository.messages == SyncAll(old(repository.messages), bundles, TargetLocales[..i])
        invariant totalAdded + |old(repository.messages).Keys| == |repository.messages.Keys|
      {
        var tag := TargetLocales[i];
        assert TargetLocales[..i + 1][..i] == TargetLocales[..i];
        if tag in bundles {
          var added := SyncLocale(tag, bundles[tag]);
          totalAdded := totalAdded + added;
        }
        // a locale without a bundle throws MissingResourceException, which is caught and skipped
        i := i + 1;
      }
      assert TargetLocales[..|TargetLocales|] == TargetLocales;
    }
  }
}
