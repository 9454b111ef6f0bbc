/*
 * The database the kanji models live in, and a loaded KanjiCard instance.
 * Database holds the user table and the three kanji tables as maps from
 * primary key to row; its invariant is every column and unique constraint of
 * the schema. KanjiCard is the in-memory model instance whose fields
 * set_review_score and save() assign before the row is written.
 */
module KanjiStore {
  import opened KanjiModels

  class Database {
    /** The auth_user table: each user's username. */
    var users: map<UserId, string>
    var kanji: map<Id, KanjiRow>
    var collections: map<Id, CollectionRow>
    var cards: map<Id, CardRow>

    /** The next value of each table's primary-key sequence. */
    var nextUserId: UserId
    var nextKanjiId: Id
    var nextCollectionId: Id
    var nextCardId: Id

    /** Every table meets its schema constraints; every key is below its sequence. */
    ghost predicate Valid()
      reads this
    {
      && KanjiTableValid(kanji)
      && UserTableValid(users)
      && CollectionTableValid(collections, users.Keys)
      && CardTableValid(cards, collections.Keys, kanji.Keys)
      && (forall u :: u in users ==> u < nextUserId)
      && (forall i :: i in kanji ==> i < nextKanjiId)
      && (forall i :: i in collections ==> i < nextCollectionId)
      && (forall i :: i in cards ==> i < nextCardId)
    }

    /** An empty database. */
    constructor ()
      ensures Valid()
      ensures users == map[] && kanji == map[] && collections == map[] && cards == map[]
    {
      users, kanji, collections, cards := map[], map[], map[], map[];
      nextUserId, nextKanjiId, nextCollectionId, nextCardId := 0, 0, 0, 0;
    }

    /**
     * User.objects.create(username=username): the user is added exactly when
     * InsertUser accepts the username; collections may then name it as owner.
     * Without an argument the username is '', so a second such call fails.
     */
    method CreateUser(username: string) returns (r: Result<UserId>)
      requires Valid()
      modifies this`users, this`nextUserId
      ensures Valid()
      ensures
        var ins := InsertUser(old(users), old(nextUserId), username);
        && r.Ok? == ins.Ok?
        && (ins.Ok? ==> r.value == old(nextUserId) && r.value !in old(users)
                        && users == ins.value && nextUserId == old(nextUserId) + 1)
        && (ins.Err? ==> r.error == ins.error && users == old(users) && nextUserId == old(nextUserId))
    {
      var ins := InsertUser(users, nextUserId, username);
      if ins.Ok? {
        CollectionTableGrowsUsers(collections, users.Keys, ins.value.Keys);
        r := Ok(nextUserId);
        users := ins.value;
        nextUserId := nextUserId + 1;
      } else {
        r := Err(ins.error);
      }
    }

    /** Kanji(...).save() for a new kanji: the row is added exactly when InsertKanji accepts it. */
    method CreateKanji(character: Option<string>, keyword: Option<string>, heisigIndex: Option<int>)
      returns (r: Result<Id>)
      requires Valid()
      modifies this`kanji, this`nextKanjiId
      ensures Valid()
      ensures
        var ins := InsertKanji(old(kanji), old(nextKanjiId), character, keyword, heisigIndex);
        && r.Ok? == ins.Ok?
        && (ins.Ok? ==> r.value == old(nextKanjiId) && kanji == ins.value && nextKanjiId == old(nextKanjiId) + 1)
        && (ins.Err? ==> r.error == ins.error && kanji == old(kanji) && nextKanjiId == old(nextKanjiId))
    {
      var ins := InsertKanji(kanji, nextKanjiId, character, keyword, heisigIndex);
      if ins.Ok? {
        CardTableGrows(cards, collections.Keys, kanji.Keys, collections.Keys, ins.value.Keys);
        r := Ok(nextKanjiId);
        kanji := ins.value;
        nextKanjiId := nextKanjiId + 1;
      } else {
        r := Err(ins.error);
      }
    }

    /** KanjiCardCollection(...).save() for a new collection. */
    method CreateCollection(owner: Option<UserId>, name: Option<string>) returns (r: Result<Id>)
      requires Valid()
      modifies this`collections, this`nextCollectionId
      ensures Valid()
      ensures
        var ins := InsertCollection(old(collections), users.Keys, old(nextCollectionId), owner, name);
        && r.Ok? == ins.Ok?
        && (ins.Ok? ==> r.value == old(nextCollectionId) && collections == ins.value
                        && nextCollectionId == old(nextCollectionId) + 1)
        && (ins.Err? ==> r.error == ins.error && collections == old(collections)
                         && nextCollectionId == old(nextCollectionId))
    {
      var ins := InsertCollection(collections, users.Keys, nextCollectionId, owner, name);
      if ins.Ok? {
        CardTableGrows(cards, collections.Keys, kanji.Keys, ins.value.Keys, kanji.Keys);
        r := Ok(nextCollectionId);
        collections := ins.value;
        nextCollectionId := nextCollectionId + 1;
      } else {
        r := Err(ins.error);
      }
    }

    /** KanjiCard.objects.create(...) at `now`: a card with the field defaults. */
    method CreateCard(collection: Option<Id>, kanji: Option<Id>, mnemonic: Option<string>, now: Instant)
      returns (r: Result<Id>)
      requires Valid()
      modifies this`cards, this`nextCardId
      ensures Valid()
      ensures
        var ins := InsertCard(old(cards), collections.Keys, this.kanji.Keys, old(nextCardId),
                              collection, kanji, mnemonic, now);
        && r.Ok? == ins.Ok?
        && (ins.Ok? ==> r.value == old(nextCardId) && cards == ins.value && nextCardId == old(nextCardId) + 1)
        && (ins.Err? ==> r.error == ins.error && cards == old(cards) && nextCardId == old(nextCardId))
    {
      var ins := InsertCard(cards, collections.Keys, this.kanji.Keys, nextCardId, collection, kanji, mnemonic, now);
      if ins.Ok? {
        r := Ok(nextCardId);
        cards := ins.value;
        nextCardId := nextCardId + 1;
      } else {
        r := Err(ins.error);
      }
    }

    /** The UPDATE of an existing card row: written exactly when UpdateCard accepts it. */
    method WriteCard(pk: Id, row: CardRow) returns (r: Outcome)
      requires Valid() && pk in cards
      modifies this`cards
      ensures Valid()
      ensures
        var upd := UpdateCard(old(cards), collections.Keys, kanji.Keys, pk, row);
        && (upd.Ok? ==> r == Pass && cards == upd.value)
        && (upd.Err? ==> r == Fail(upd.error) && cards == old(cards))
    {
      var upd := UpdateCard(cards, collections.Keys, kanji.Keys, pk, row);
      if upd.Ok? {
        cards := upd.value;
        r := Pass;
      } else {
        r := Fail(upd.error);
      }
    }
  }

  /** A KanjiCard model instance, loaded from its row. */
  class KanjiCard {
    const pk: Id
    var collection: Id
    var kanji: Id
    var mnemonic: string
    var totalReviews: int
    var lastReviewed: Instant
    var lastMissed: Instant
    var nextReview: Date
    var efactor: real

    /** The row this instance would write. */
    function Fields(): (r: CardRow)
      reads this
    {
      CardRow(collection, kanji, mnemonic, totalReviews, lastReviewed, lastMissed, nextReview, efactor)
    }

    /** KanjiCard.objects.get(pk=pk). */
    constructor Get(db: Database, pk: Id)
      requires db.Valid() && pk in db.cards
      ensures this.pk == pk && Fields() == db.cards[pk]
    {
      this.pk := pk;
      var row := db.cards[pk];
      collection, kanji, mnemonic := row.collection, row.kanji, row.mnemonic;
      totalReviews, lastReviewed, lastMissed := row.totalReviews, row.lastReviewed, row.lastMissed;
      nextReview, efactor := row.nextReview, row.efactor;
    }

    /** refresh_from_db(): every field is reloaded from the row. */
    method RefreshFromDb(db: Database)
      requires db.Valid() && pk in db.cards
      modifies this
      ensures Fields() == db.cards[pk]
    {
      var row := db.cards[pk];
      collection, kanji, mnemonic := row.collection, row.kanji, row.mnemonic;
      totalReviews, lastReviewed, lastMissed := row.totalReviews, row.lastReviewed, row.lastMissed;
      nextReview, efactor := row.nextReview, row.efactor;
    }

    /**
     * save() on a stored card: the auto_now fields are stamped on the instance
     * first, then the row is rewritten if the database accepts it.
     */
    method Save(db: Database, now: Instant) returns (r: Outcome)
      requires db.Valid() && pk in db.cards
      modifies this`lastReviewed, this`lastMissed, this`nextReview, db`cards
      ensures db.Valid()
      ensures Fields() == Stamped(old(Fields()), now)
      ensures
        var upd := UpdateCard(old(db.cards), db.collections.Keys, db.kanji.Keys, pk, Fields());
        && (upd.Ok? ==> r == Pass && db.cards == upd.value)
        && (upd.Err? ==> r == Fail(upd.error) && db.cards == old(db.cards))
    {
      lastReviewed, lastMissed, nextReview := now, now, now.date;
      var row := Fields();
      assert row == Stamped(old(Fields()), now);
      r := db.WriteCard(pk, row);
    }

    /**
     * set_review_score(score) at `now`. An invalid score raises ValueError and
     * nothing changes. Otherwise total_reviews is incremented and save()
     * stamps and writes the card; if the database refuses the row (the count
     * passes the integer column's maximum) the instance keeps its new values
     * and the table keeps the old row.
     */
    method SetReviewScore(db: Database, score: int, now: Instant) returns (r: Outcome)
      requires db.Valid() && pk in db.cards
      modifies this`totalReviews, this`lastReviewed, this`lastMissed, this`nextReview, db`cards
      ensures db.Valid()
      ensures
        var scored := ScoreReview(old(Fields()), score, now);
        && (scored.Err? ==> r == Fail(ValueError) && Fields() == old(Fields()) && db.cards == old(db.cards))
        && (scored.Ok? ==>
              && Fields() == scored.value
              && var upd := UpdateCard(old(db.cards), db.collections.Keys, db.kanji.Keys, pk, scored.value);
              && (upd.Ok? ==> r == Pass && db.cards == upd.value)
              && (upd.Err? ==> r == Fail(upd.error) && db.cards == old(db.cards)))
    {
      if !ValidScore(score) {
        return Fail(ValueError);
      }
      var newTotal := totalReviews + 1;
      totalReviews := newTotal;
      r := Save(db, now);
    }
  }
}
