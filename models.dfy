/*
 * The three Django models of the kanji app -- Kanji, KanjiCardCollection and
 * KanjiCard -- as row values, the column and unique_together constraints that
 * the PostgreSQL schema derived from them enforces, the pure table operations
 * (INSERT and UPDATE that either keep every constraint or fail), and the
 * in-memory effect of KanjiCard.set_review_score.
 */
module KanjiModels {

  /** Largest value of a PostgreSQL `integer`, the column type of a PositiveIntegerField. */
  const MaxInteger: int := 0x7fff_ffff

  /** max_length of Kanji.character, Kanji.keyword and KanjiCardCollection.name. */
  const CharacterMaxLength: nat := 1
  const KeywordMaxLength: nat := 50
  const CollectionNameMaxLength: nat := 250

  /** max_length of the username of django.contrib.auth's User. */
  const UsernameMaxLength: nat := 30

  /** Default of KanjiCard.efactor. */
  const DefaultEfactor: real := 2.5

  /** Scores accepted by set_review_score are those in range(0, 6). */
  const ScoreLow: int := 0
  const ScoreHighExclusive: int := 6

  /** Primary keys of the kanji tables and of the user table. */
  type Id = nat
  type UserId = nat

  /** A calendar date as a day number (the value of a DateField). */
  type Date = int

  /** Microseconds since midnight. */
  type TimeOfDay = t: int | 0 <= t < 86_400_000_000

  /** An aware UTC timestamp (the value of a DateTimeField with USE_TZ). */
  datatype Instant = Instant(date: Date, time: TimeOfDay)

  datatype Option<T> = None | Some(value: T)

  /**
   * ValueError is raised by set_review_score; DatabaseError is the common base
   * of the IntegrityError and DataError the database raises on a violated
   * constraint or an out-of-range value.
   */
  datatype Error = ValueError | DatabaseError

  datatype Result<T> = Ok(value: T) | Err(error: Error)

  datatype Outcome = Pass | Fail(error: Error)

  /** One row of each table. */
  datatype KanjiRow = KanjiRow(character: string, keyword: string, heisigIndex: int)

  datatype CollectionRow = CollectionRow(owner: UserId, name: string)

  datatype CardRow = CardRow(
    collection: Id,
    kanji: Id,
    mnemonic: string,
    totalReviews: int,
    lastReviewed: Instant,
    lastMissed: Instant,
    nextReview: Date,
    efactor: real)

  /**
   * The value a PostgreSQL varchar(n) column stores for `s`: a string longer
   * than n whose excess characters are all spaces is cut to n characters; any
   * other string is kept as it is (and refused by the length check if too long).
   */
  function Clip(s: string, n: nat): (r: string)
    ensures |s| <= n ==> r == s
    ensures |s| > n && (forall k :: n <= k < |s| ==> s[k] == ' ') ==> r == s[..n]
    ensures |s| > n && (exists k :: n <= k < |s| && s[k] != ' ') ==> r == s
    ensures |r| <= n <==> |s| <= n || forall k :: n <= k < |s| ==> s[k] == ' '
  {
    if |s| > n && forall k | n <= k < |s| :: s[k] == ' ' then s[..n] else s
  }

  /* ---------------------------------------------------------------------- */
  /* django.contrib.auth User: username varchar(30) unique                  */
  /* ---------------------------------------------------------------------- */

  predicate UserTableValid(t: map<UserId, string>) {
    && (forall i :: i in t ==> |t[i]| <= UsernameMaxLength)
    && (forall i, j :: i in t && j in t && i != j ==> t[i] != t[j])
  }

  /**
   * Saving a new User with the given username (User.objects.create() leaves it
   * at the field default ''): it succeeds exactly when the stored username
   * fits its column and no other user has it.
   */
  function InsertUser(t: map<UserId, string>, id: UserId, username: string): (r: Result<map<UserId, string>>)
    requires UserTableValid(t) && id !in t
    ensures r.Ok? <==> UserTableValid(t[id := Clip(username, UsernameMaxLength)])
    ensures r.Ok? ==> r.value == t[id := Clip(username, UsernameMaxLength)]
    ensures r.Err? ==> r.error == DatabaseError
  {
    var stored := Clip(username, UsernameMaxLength);
    if |stored| <= UsernameMaxLength && forall j :: j in t ==> t[j] != stored then
      Ok(t[id := stored])
    else
      assert !UserTableValid(t[id := stored]) by {
        if |stored| > UsernameMaxLength {
          assert t[id := stored][id] == stored;
        } else {
          var j :| j in t && t[j] == stored;
          assert t[id := stored][j] == t[j] && t[id := stored][id] == stored;
        }
      }
      Err(DatabaseError)
  }

  /**
   * Once a user with the empty username exists, creating another user without
   * a username is refused.
   */
  lemma SecondUserWithoutUsernameRefused(t: map<UserId, string>, id: UserId, j: UserId)
    requires UserTableValid(t) && id !in t && j in t && t[j] == ""
    ensures InsertUser(t, id, "").Err?
  {
    assert t[id := ""][j] == t[id := ""][id];
  }

  /* ---------------------------------------------------------------------- */
  /* Kanji: character varchar(1) unique, keyword varchar(50) unique,         */
  /* heisig_index integer unique with CHECK (heisig_index >= 0)             */
  /* ---------------------------------------------------------------------- */

  predicate KanjiFits(k: KanjiRow) {
    && |k.character| <= CharacterMaxLength
    && |k.keyword| <= KeywordMaxLength
    && 0 <= k.heisigIndex <= MaxInteger
  }

  /** Two kanji rows that no unique index lets stand together. */
  predicate KanjiClash(a: KanjiRow, b: KanjiRow) {
    a.character == b.character || a.keyword == b.keyword || a.heisigIndex == b.heisigIndex
  }

  predicate KanjiTableValid(t: map<Id, KanjiRow>) {
    && (forall i :: i in t ==> KanjiFits(t[i]))
    && (forall i, j :: i in t && j in t && i != j ==> !KanjiClash(t[i], t[j]))
  }

  /** The row PostgreSQL stores for a new kanji, after clipping both varchar columns. */
  function StoredKanji(character: string, keyword: string, heisigIndex: int): (r: KanjiRow)
    ensures r.heisigIndex == heisigIndex
    ensures |character| <= CharacterMaxLength ==> r.character == character
    ensures |keyword| <= KeywordMaxLength ==> r.keyword == keyword
  {
    KanjiRow(Clip(character, CharacterMaxLength), Clip(keyword, KeywordMaxLength), heisigIndex)
  }

  /**
   * Saving a new Kanji under primary key `id`: it fails on a NULL column, and
   * otherwise succeeds exactly when the table with the stored row still meets
   * every declared constraint.
   */
  function InsertKanji(
    t: map<Id, KanjiRow>, id: Id,
    character: Option<string>, keyword: Option<string>, heisigIndex: Option<int>)
    : (r: Result<map<Id, KanjiRow>>)
    requires KanjiTableValid(t) && id !in t
    ensures r.Ok? <==>
      && character.Some? && keyword.Some? && heisigIndex.Some?
      && KanjiTableValid(t[id := StoredKanji(character.value, keyword.value, heisigIndex.value)])
    ensures r.Ok? ==> r.value == t[id := StoredKanji(character.value, keyword.value, heisigIndex.value)]
    ensures r.Err? ==> r.error == DatabaseError
  {
    if character.None? || keyword.None? || heisigIndex.None? then Err(DatabaseError)
    else
      var row := StoredKanji(character.value, keyword.value, heisigIndex.value);
      if KanjiFits(row) && forall j :: j in t ==> !KanjiClash(t[j], row) then
        Ok(t[id := row])
      else
        assert !KanjiTableValid(t[id := row]) by {
          if !KanjiFits(row) {
            assert t[id := row][id] == row;
          } else {
            var j :| j in t && KanjiClash(t[j], row);
            assert t[id := row][j] == t[j] && t[id := row][id] == row;
          }
        }
        Err(DatabaseError)
  }

  /**
   * The rejections the Kanji tests expect: a duplicate character, keyword or
   * index, a negative index, a second character that is not a space, a
   * missing column.
   */
  lemma KanjiInsertRejections(
    t: map<Id, KanjiRow>, id: Id, j: Id,
    character: string, keyword: string, heisigIndex: int)
    requires KanjiTableValid(t) && id !in t && j in t
    ensures InsertKanji(t, id, Some(t[j].character), Some(keyword), Some(heisigIndex)).Err?
    ensures InsertKanji(t, id, Some(character), Some(t[j].keyword), Some(heisigIndex)).Err?
    ensures InsertKanji(t, id, Some(character), Some(keyword), Some(t[j].heisigIndex)).Err?
    ensures heisigIndex < 0 ==> InsertKanji(t, id, Some(character), Some(keyword), Some(heisigIndex)).Err?
    ensures (exists k :: 1 <= k < |character| && character[k] != ' ') ==>
      InsertKanji(t, id, Some(character), Some(keyword), Some(heisigIndex)).Err?
    ensures InsertKanji(t, id, None, Some(keyword), Some(heisigIndex)).Err?
    ensures InsertKanji(t, id, Some(character), None, Some(heisigIndex)).Err?
    ensures InsertKanji(t, id, Some(character), Some(keyword), None).Err?
  {
  }

  /**
   * Trailing spaces beyond the column length are cut, not refused: '月 ' is
   * stored as '月', and then clashes with an existing '月'.
   */
  lemma KanjiTrailingSpacesClipped(t: map<Id, KanjiRow>, id: Id, j: Id)
    requires KanjiTableValid(t) && id !in t
    ensures InsertKanji(map[], 0, Some("月 "), Some("month"), Some(13))
         == Ok(map[0 := KanjiRow("月", "month", 13)])
    ensures j in t && t[j].character == "月" ==>
      InsertKanji(t, id, Some("月 "), Some("month"), Some(13)).Err?
  {
    assert Clip("月 ", CharacterMaxLength) == "月";
  }

  /* ---------------------------------------------------------------------- */
  /* KanjiCardCollection: owner references a user, name varchar(250),       */
  /* unique_together (owner, name)                                           */
  /* ---------------------------------------------------------------------- */

  predicate CollectionFits(c: CollectionRow, userIds: set<UserId>) {
    c.owner in userIds && |c.name| <= CollectionNameMaxLength
  }

  predicate CollectionClash(a: CollectionRow, b: CollectionRow) {
    a.owner == b.owner && a.name == b.name
  }

  predicate CollectionTableValid(t: map<Id, CollectionRow>, userIds: set<UserId>) {
    && (forall i :: i in t ==> CollectionFits(t[i], userIds))
    && (forall i, j :: i in t && j in t && i != j ==> !CollectionClash(t[i], t[j]))
  }

  /**
   * Saving a new KanjiCardCollection: fails on a NULL column, otherwise
   * succeeds exactly when the table with the stored row (the name clipped as
   * its varchar(250) column does) meets its constraints.
   */
  function InsertCollection(
    t: map<Id, CollectionRow>, userIds: set<UserId>, id: Id,
    owner: Option<UserId>, name: Option<string>)
    : (r: Result<map<Id, CollectionRow>>)
    requires CollectionTableValid(t, userIds) && id !in t
    ensures r.Ok? <==>
      && owner.Some? && name.Some?
      && CollectionTableValid(t[id := CollectionRow(owner.value, Clip(name.value, CollectionNameMaxLength))], userIds)
    ensures r.Ok? ==> r.value == t[id := CollectionRow(owner.value, Clip(name.value, CollectionNameMaxLength))]
    ensures r.Err? ==> r.error == DatabaseError
  {
    if owner.None? || name.None? then Err(DatabaseError)
    else
      var row := CollectionRow(owner.value, Clip(name.value, CollectionNameMaxLength));
      if CollectionFits(row, userIds) && forall j :: j in t ==> !CollectionClash(t[j], row) then
        Ok(t[id := row])
      else
        assert !CollectionTableValid(t[id := row], userIds) by {
          if !CollectionFits(row, userIds) {
            assert t[id := row][id] == row;
          } else {
            var j :| j in t && CollectionClash(t[j], row);
            assert t[id := row][j] == t[j] && t[id := row][id] == row;
          }
        }
        Err(DatabaseError)
  }

  /** A second collection of the same owner under the same name is refused. */
  lemma CollectionInsertRejectsDuplicate(
    t: map<Id, CollectionRow>, userIds: set<UserId>, id: Id, j: Id)
    requires CollectionTableValid(t, userIds) && id !in t && j in t
    ensures InsertCollection(t, userIds, id, Some(t[j].owner), Some(t[j].name)).Err?
  {
  }

  /** Registering more users keeps all existing collections valid. */
  lemma CollectionTableGrowsUsers(t: map<Id, CollectionRow>, userIds: set<UserId>, more: set<UserId>)
    requires CollectionTableValid(t, userIds) && userIds <= more
    ensures CollectionTableValid(t, more)
  {
  }

  /* ---------------------------------------------------------------------- */
  /* KanjiCard: collection and kanji reference existing rows, mnemonic text, */
  /* total_reviews integer >= 0, unique_together (collection, kanji) and    */
  /* (collection, mnemonic)                                                  */
  /* ---------------------------------------------------------------------- */

  predicate CardFits(c: CardRow, collectionIds: set<Id>, kanjiIds: set<Id>) {
    && c.collection in collectionIds
    && c.kanji in kanjiIds
    && 0 <= c.totalReviews <= MaxInteger
  }

  predicate CardClash(a: CardRow, b: CardRow) {
    a.collection == b.collection && (a.kanji == b.kanji || a.mnemonic == b.mnemonic)
  }

  predicate CardTableValid(t: map<Id, CardRow>, collectionIds: set<Id>, kanjiIds: set<Id>) {
    && (forall i :: i in t ==> CardFits(t[i], collectionIds, kanjiIds))
    && (forall i, j :: i in t && j in t && i != j ==> !CardClash(t[i], t[j]))
  }

  /** Adding collections or kanji never invalidates the card table. */
  lemma CardTableGrows(
    t: map<Id, CardRow>, collectionIds: set<Id>, kanjiIds: set<Id>,
    moreCollections: set<Id>, moreKanji: set<Id>)
    requires CardTableValid(t, collectionIds, kanjiIds)
    requires collectionIds <= moreCollections && kanjiIds <= moreKanji
    ensures CardTableValid(t, moreCollections, moreKanji)
  {
  }

  /** What Model.save() does to the auto_now fields before writing the row. */
  function Stamped(c: CardRow, now: Instant): (r: CardRow)
    ensures r.lastReviewed == now && r.lastMissed == now && r.nextReview == now.date
    ensures r.(lastReviewed := c.lastReviewed, lastMissed := c.lastMissed, nextReview := c.nextReview) == c
  {
    c.(lastReviewed := now, lastMissed := now, nextReview := now.date)
  }

  /** The row of a card created with the field defaults and saved at `now`. */
  function NewCard(collection: Id, kanji: Id, mnemonic: string, now: Instant): (r: CardRow)
    ensures r.collection == collection && r.kanji == kanji && r.mnemonic == mnemonic
    ensures r.totalReviews == 0 && r.efactor == DefaultEfactor
    ensures r.lastReviewed == now && r.lastMissed == now && r.nextReview == now.date
  {
    Stamped(CardRow(collection, kanji, mnemonic, 0, now, now, now.date, DefaultEfactor), now)
  }

  /** The checks PostgreSQL makes when a card row is written under key `id`. */
  predicate CardAcceptable(t: map<Id, CardRow>, collectionIds: set<Id>, kanjiIds: set<Id>, id: Id, row: CardRow) {
    CardFits(row, collectionIds, kanjiIds) && forall j :: j in t && j != id ==> !CardClash(t[j], row)
  }

  /** Writing `row` under `id` keeps a valid table valid exactly when the row is acceptable. */
  lemma CardWriteKeepsValid(t: map<Id, CardRow>, collectionIds: set<Id>, kanjiIds: set<Id>, id: Id, row: CardRow)
    requires CardTableValid(t, collectionIds, kanjiIds)
    ensures CardTableValid(t[id := row], collectionIds, kanjiIds) <==> CardAcceptable(t, collectionIds, kanjiIds, id, row)
  {
    var t' := t[id := row];
    assert t'[id] == row;
    if !CardAcceptable(t, collectionIds, kanjiIds, id, row) && CardFits(row, collectionIds, kanjiIds) {
      var j :| j in t && j != id && CardClash(t[j], row);
      assert t'[j] == t[j];
    }
  }

  /**
   * Saving a new KanjiCard with the defaults at `now`: fails on a NULL column,
   * otherwise succeeds exactly when the table with the new row still meets
   * every constraint (both foreign keys resolve, both unique_together pairs).
   */
  function InsertCard(
    t: map<Id, CardRow>, collectionIds: set<Id>, kanjiIds: set<Id>, id: Id,
    collection: Option<Id>, kanji: Option<Id>, mnemonic: Option<string>, now: Instant)
    : (r: Result<map<Id, CardRow>>)
    requires CardTableValid(t, collectionIds, kanjiIds) && id !in t
    ensures r.Ok? <==>
      && collection.Some? && kanji.Some? && mnemonic.Some?
      && CardTableValid(t[id := NewCard(collection.value, kanji.value, mnemonic.value, now)], collectionIds, kanjiIds)
    ensures r.Ok? ==> r.value == t[id := NewCard(collection.value, kanji.value, mnemonic.value, now)]
    ensures r.Err? ==> r.error == DatabaseError
  {
    if collection.None? || kanji.None? || mnemonic.None? then Err(DatabaseError)
    else
      var row := NewCard(collection.value, kanji.value, mnemonic.value, now);
      CardWriteKeepsValid(t, collectionIds, kanjiIds, id, row);
      if CardAcceptable(t, collectionIds, kanjiIds, id, row) then Ok(t[id := row]) else Err(DatabaseError)
  }

  /**
   * The UPDATE issued by save() on a card that already has a row: it
   * succeeds exactly when the table with the rewritten row stays valid.
   */
  function UpdateCard(t: map<Id, CardRow>, collectionIds: set<Id>, kanjiIds: set<Id>, pk: Id, row: CardRow)
    : (r: Result<map<Id, CardRow>>)
    requires CardTableValid(t, collectionIds, kanjiIds) && pk in t
    ensures r.Ok? <==> CardTableValid(t[pk := row], collectionIds, kanjiIds)
    ensures r.Ok? ==> r.value == t[pk := row]
    ensures r.Err? ==> r.error == DatabaseError
  {
    CardWriteKeepsValid(t, collectionIds, kanjiIds, pk, row);
    if CardAcceptable(t, collectionIds, kanjiIds, pk, row) then Ok(t[pk := row]) else Err(DatabaseError)
  }

  /** The cards of one collection: collection.kanjicard_set. */
  function CardsIn(t: map<Id, CardRow>, collection: Id): (s: set<Id>) {
    set i | i in t && t[i].collection == collection
  }

  /** A successful card insert adds exactly its own key to its collection's cards and none to any other. */
  lemma InsertCardCount(
    t: map<Id, CardRow>, collectionIds: set<Id>, kanjiIds: set<Id>, id: Id,
    collection: Id, kanji: Id, mnemonic: string, now: Instant, other: Id)
    requires CardTableValid(t, collectionIds, kanjiIds) && id !in t
    requires InsertCard(t, collectionIds, kanjiIds, id, Some(collection), Some(kanji), Some(mnemonic), now).Ok?
    ensures CardsIn(InsertCard(t, collectionIds, kanjiIds, id, Some(collection), Some(kanji), Some(mnemonic), now).value, collection)
         == CardsIn(t, collection) + {id}
    ensures |CardsIn(InsertCard(t, collectionIds, kanjiIds, id, Some(collection), Some(kanji), Some(mnemonic), now).value, collection)|
         == |CardsIn(t, collection)| + 1
    ensures other != collection ==>
      CardsIn(InsertCard(t, collectionIds, kanjiIds, id, Some(collection), Some(kanji), Some(mnemonic), now).value, other)
      == CardsIn(t, other)
  {
  }

  /** A card repeating the kanji, or the mnemonic, of a card in the same collection is refused. */
  lemma CardInsertRejectsDuplicates(
    t: map<Id, CardRow>, collectionIds: set<Id>, kanjiIds: set<Id>, id: Id, j: Id,
    kanji: Id, mnemonic: string, now: Instant)
    requires CardTableValid(t, collectionIds, kanjiIds) && id !in t && j in t
    ensures InsertCard(t, collectionIds, kanjiIds, id, Some(t[j].collection), Some(t[j].kanji), Some(mnemonic), now).Err?
    ensures InsertCard(t, collectionIds, kanjiIds, id, Some(t[j].collection), Some(kanji), Some(t[j].mnemonic), now).Err?
  {
  }

  /**
   * Two cards with different kanji and different mnemonics can both be added
   * to an empty collection, which then holds two cards.
   */
  lemma TwoDifferentCardsInOneCollection(
    t: map<Id, CardRow>, collectionIds: set<Id>, kanjiIds: set<Id>, id1: Id, id2: Id,
    collection: Id, kanji1: Id, kanji2: Id, mnemonic1: string, mnemonic2: string, now: Instant)
    requires CardTableValid(t, collectionIds, kanjiIds)
    requires id1 !in t && id2 !in t && id1 != id2
    requires collection in collectionIds && kanji1 in kanjiIds && kanji2 in kanjiIds
    requires CardsIn(t, collection) == {}
    requires kanji1 != kanji2 && mnemonic1 != mnemonic2
    ensures
      var first := InsertCard(t, collectionIds, kanjiIds, id1, Some(collection), Some(kanji1), Some(mnemonic1), now);
      && first.Ok?
      && var second := InsertCard(first.value, collectionIds, kanjiIds, id2, Some(collection), Some(kanji2), Some(mnemonic2), now);
      && second.Ok?
      && |CardsIn(second.value, collection)| == 2
  {
    var row1 := NewCard(collection, kanji1, mnemonic1, now);
    var row2 := NewCard(collection, kanji2, mnemonic2, now);
    CardWriteKeepsValid(t, collectionIds, kanjiIds, id1, row1);
    forall j | j in t && j != id1
      ensures !CardClash(t[j], row1)
    {
      assert j !in CardsIn(t, collection);
    }
    var t1 := t[id1 := row1];
    CardWriteKeepsValid(t1, collectionIds, kanjiIds, id2, row2);
    forall j | j in t1 && j != id2
      ensures !CardClash(t1[j], row2)
    {
      if j != id1 {
        assert j !in CardsIn(t, collection);
      }
    }
    InsertCardCount(t, collectionIds, kanjiIds, id1, collection, kanji1, mnemonic1, now, collection);
    InsertCardCount(t1, collectionIds, kanjiIds, id2, collection, kanji2, mnemonic2, now, collection);
  }

  /* ---------------------------------------------------------------------- */
  /* KanjiCard.set_review_score                                              */
  /* ---------------------------------------------------------------------- */

  /** `score in range(0, 6)` for an integer score. */
  predicate ValidScore(score: int) {
    ScoreLow <= score < ScoreHighExclusive
  }

  /**
   * The card's field values after set_review_score(score) at `now`, before
   * the row is written: ValueError for a score outside 0..5 with nothing
   * assigned; otherwise one more review and the auto_now stamps of save().
   */
  function ScoreReview(c: CardRow, score: int, now: Instant): (r: Result<CardRow>)
    ensures r.Err? <==> score < 0 || score > 5
    ensures r.Err? ==> r.error == ValueError
    ensures r.Ok? ==> r.value.totalReviews == c.totalReviews + 1
    ensures r.Ok? ==> r.value.lastReviewed == now && r.value.lastMissed == now && r.value.nextReview == now.date
    ensures r.Ok? ==>
      && r.value.collection == c.collection && r.value.kanji == c.kanji
      && r.value.mnemonic == c.mnemonic && r.value.efactor == c.efactor
  {
    if !ValidScore(score) then Err(ValueError)
    else Ok(Stamped(c.(totalReviews := c.totalReviews + 1), now))
  }

  /**
   * As written, a review never moves next_review past the review date: a
   * score of 4 on a card whose next_review is today leaves it today.
   */
  lemma ReviewNeverSchedulesAhead(c: CardRow, score: int, now: Instant)
    requires ScoreReview(c, score, now).Ok?
    ensures ScoreReview(c, score, now).value.nextReview == now.date
    ensures c.nextReview == now.date ==> ScoreReview(c, score, now).value.nextReview == c.nextReview
  {
  }

  /**
   * The save() that follows an accepted score on a card whose instance
   * matches its row succeeds while the counter is below the integer column's
   * maximum: only that card's row changes, to one more review and the new
   * stamps.
   */
  lemma ReviewIsWritten(
    t: map<Id, CardRow>, collectionIds: set<Id>, kanjiIds: set<Id>, pk: Id, score: int, now: Instant)
    requires CardTableValid(t, collectionIds, kanjiIds) && pk in t
    requires ValidScore(score) && t[pk].totalReviews < MaxInteger
    ensures
      var upd := UpdateCard(t, collectionIds, kanjiIds, pk, ScoreReview(t[pk], score, now).value);
      && upd.Ok?
      && upd.value.Keys == t.Keys
      && upd.value[pk].totalReviews == t[pk].totalReviews + 1
      && upd.value[pk].nextReview == now.date
      && upd.value[pk].efactor == t[pk].efactor
      && (forall j :: j in t && j != pk ==> upd.value[j] == t[j])
  {
  }

  /**
   * At the column maximum the accepted score still increments the instance,
   * but the database refuses the row (integer out of range).
   */
  lemma ReviewPastMaximumRefused(
    t: map<Id, CardRow>, collectionIds: set<Id>, kanjiIds: set<Id>, pk: Id, score: int, now: Instant)
    requires CardTableValid(t, collectionIds, kanjiIds) && pk in t
    requires ValidScore(score) && t[pk].totalReviews == MaxInteger
    ensures ScoreReview(t[pk], score, now).value.totalReviews == MaxInteger + 1
    ensures UpdateCard(t, collectionIds, kanjiIds, pk, ScoreReview(t[pk], score, now).value).Err?
  {
  }

  /** One scored review in a session: the score and when it was given. */
  datatype Review = Review(score: int, at: Instant)

  /**
   * The in-memory card after calling set_review_score for each review in
   * turn; a call that raises ValueError leaves the card as it was.
   */
  function ReviewSession(c: CardRow, reviews: seq<Review>): (r: CardRow)
    decreases |reviews|
  {
    if reviews == [] then c
    else
      var step := ScoreReview(c, reviews[0].score, reviews[0].at);
      ReviewSession(if step.Ok? then step.value else c, reviews[1..])
  }

  /** How many reviews of a session carry a score set_review_score accepts. */
  function AcceptedCount(reviews: seq<Review>): (n: nat)
    decreases |reviews|
  {
    if reviews == [] then 0
    else (if ValidScore(reviews[0].score) then 1 else 0) + AcceptedCount(reviews[1..])
  }

  /**
   * Over any session, total_reviews grows by exactly the number of accepted
   * scores, the card keeps its collection, kanji, mnemonic and efactor (so
   * efactor stays at whatever it was, 2.5 for a new card), and a session of
   * only rejected scores changes nothing.
   */
  lemma {:induction false} ReviewSessionCounts(c: CardRow, reviews: seq<Review>)
    ensures ReviewSession(c, reviews).totalReviews == c.totalReviews + AcceptedCount(reviews)
    ensures ReviewSession(c, reviews).collection == c.collection
    ensures ReviewSession(c, reviews).kanji == c.kanji
    ensures ReviewSession(c, reviews).mnemonic == c.mnemonic
    ensures ReviewSession(c, reviews).efactor == c.efactor
    ensures AcceptedCount(reviews) == 0 ==> ReviewSession(c, reviews) == c
    decreases |reviews|
  {
    if reviews != [] {
      var step := ScoreReview(c, reviews[0].score, reviews[0].at);
      ReviewSessionCounts(if step.Ok? then step.value else c, reviews[1..]);
    }
  }

  /**
   * The last accepted review of a non-empty session sets all three stamps:
   * after a session ending in an accepted review, next_review is that
   * review's date.
   */
  lemma {:induction false} ReviewSessionEndsStamped(c: CardRow, reviews: seq<Review>)
    requires reviews != [] && ValidScore(reviews[|reviews| - 1].score)
    ensures ReviewSession(c, reviews).nextReview == reviews[|reviews| - 1].at.date
    ensures ReviewSession(c, reviews).lastReviewed == reviews[|reviews| - 1].at
    ensures ReviewSession(c, reviews).lastMissed == reviews[|reviews| - 1].at
    decreases |reviews|
  {
    var step := ScoreReview(c, reviews[0].score, reviews[0].at);
    if |reviews| > 1 {
      assert reviews[1..][|reviews[1..]| - 1] == reviews[|reviews| - 1];
      ReviewSessionEndsStamped(if step.Ok? then step.value else c, reviews[1..]);
    }
  }
}
