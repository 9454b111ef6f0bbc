# Kanji Study Hall: the card models and their database constraints

Kanji Study Hall is a flashcard application for learning kanji. Each user owns
collections of cards, and each card pairs a kanji with a mnemonic the user wrote.
This project models the application's three Django models: `Kanji`,
`KanjiCardCollection` and `KanjiCard`. It models the constraints that the
PostgreSQL schema derived from them enforces, and the one piece of behaviour the
models define, `KanjiCard.set_review_score`.

- `models.dfy` (module `KanjiModels`) holds the data. There is one row datatype
  per table and one predicate per column or unique constraint. `...TableValid`
  says that a whole table respects its constraints. The pure functions
  `InsertKanji`, `InsertCollection`, `InsertCard` and `UpdateCard` attempt a
  write: each either returns the new table or fails with `DatabaseError`.
  `ScoreReview` gives the card's field values after `set_review_score`.
  The lemmas relate these functions to one another.
- `store.dfy` (module `KanjiStore`) holds the mutable parts. `Database` is a
  class whose tables are map-valued fields, and whose invariant `Valid()` is
  every schema constraint. `KanjiCard` is a class for a loaded model instance:
  `Save` stamps the `auto_now` fields and rewrites the row, and
  `SetReviewScore` is `set_review_score`. Each method's frame
  (``modifies this`totalReviews, ...``) lists exactly the fields it may change.

What the model establishes:

- `set_review_score` raises `ValueError` exactly for scores outside 0..5, both
  -1 and 6 included. In that case no field and no row changes.
- A valid score increments `total_reviews` by exactly one. The following
  `save()` sets `last_reviewed` and `last_missed` to the current time and
  `next_review` to the current date (one instant in the model, three clock
  reads in Django). `efactor`, `mnemonic`, `kanji` and
  `collection` never change.
- A new card starts with `total_reviews == 0` and `efactor == 2.5`.
- Every insert fails on a NULL column. Otherwise it succeeds exactly when the
  table with the stored row still satisfies every declared constraint, so the
  store's invariant holds after every operation. A `varchar(n)` column stores
  a longer string cut to n characters when every excess character is a space
  (`Clip`), and refuses it otherwise: `'月 '` is stored as `'月'`, and then
  clashes with an existing `'月'`. The constraints on the stored row are:
  - for the user table: the username is at most 30 characters and unique;
  - for `Kanji`: `character` at most 1 character, `keyword` at most 50,
    `heisig_index` in 0..2147483647, and each of the three unique;
  - for `KanjiCardCollection`: the owner exists, the name is at most 250
    characters, and `(owner, name)` is unique;
  - for `KanjiCard`: the collection and the kanji exist, `total_reviews` is in
    0..2147483647, and `(collection, kanji)` and `(collection, mnemonic)` are
    each unique.
- Two cards with different kanji and different mnemonics both fit in an empty
  collection, which then holds two cards.

### Where the tests and `models.py` part ways

`kanji/tests/test_models.py` describes an SM-2 scheduler (lines 146-200) and
`next_scheduled_card()` (lines 280-322). It also relies on a
`consecutive_correct` field that exists only in migration 0011. `models.py`
implements none of these, and this model follows `models.py`. The lemma
`ReviewNeverSchedulesAhead` records the consequence: after any accepted score,
`next_review` is the review date, so a score of 4 on the day the card was
created does not advance the schedule. This is what
`test_review_score_above_3_advances_review_schedule` asserts against.

`User.objects.create()` without arguments gives the username `''`, which is
unique, so a second such call is refused (`SecondUserWithoutUsernameRefused`).
In `test_create_collection_with_existing_name_fails`
(`kanji/tests/test_models.py:274-278`) the expected `IntegrityError` therefore
comes from creating the second owner (line 216), before the collection name is
ever compared; the `(owner, name)` rule itself is `CollectionInsertRejectsDuplicate`.

## Model

| member | source | states |
|---|---|---|
| `KanjiModels.Clip` | kanjistudyhall/kanji/models.py:12-13 | What a varchar(n) column stores: a string of at most n characters unchanged, a longer one whose excess is all spaces cut to n, any other longer one unchanged (and then too long); the result fits exactly when the input fits or its excess is all spaces |
| `KanjiModels.InsertUser` | kanjistudyhall/kanji/tests/test_models.py:78 | Saving a new user fails exactly when its stored username is over 30 characters or already taken, and otherwise adds it under the new key |
| `KanjiModels.SecondUserWithoutUsernameRefused` | kanjistudyhall/kanji/tests/test_models.py:216 | Once a user with the empty username exists, another User.objects.create() without a username is refused |
| `KanjiModels.StoredKanji` | kanjistudyhall/kanji/models.py:12-14 | The stored kanji row keeps the index, and keeps character and keyword whenever they already fit their columns |
| `KanjiModels.InsertKanji` | kanjistudyhall/kanji/models.py:12-14 | Saving a new kanji fails on a NULL column; otherwise it succeeds exactly when the table with the stored (clipped) row keeps every kanji constraint, and on success that row sits under the new key |
| `KanjiModels.KanjiInsertRejections` | kanjistudyhall/kanji/models.py:12-14 | A kanji repeating an existing character, keyword or Heisig index is refused, and so is a negative index, a second character that is not a space, or any missing column |
| `KanjiModels.KanjiTrailingSpacesClipped` | kanjistudyhall/kanji/models.py:12 | '月 ' is accepted into an empty table and stored as '月', and is refused where '月' already exists |
| `KanjiModels.InsertCollection` | kanjistudyhall/kanji/models.py:24-28 | Saving a new collection fails on a NULL column; otherwise it succeeds exactly when the owner exists, the clipped name fits 250 characters and no collection of that owner has that name |
| `KanjiModels.CollectionInsertRejectsDuplicate` | kanjistudyhall/kanji/models.py:27-28 | A second collection with the same owner and name is refused |
| `KanjiModels.CollectionTableGrowsUsers` | kanjistudyhall/kanji/models.py:24 | New users never invalidate existing collections (the owner foreign key only gains targets) |
| `KanjiModels.CardTableGrows` | kanjistudyhall/kanji/models.py:38-39 | New collections or kanji never invalidate existing cards (their foreign keys only gain targets) |
| `KanjiModels.Stamped` | kanjistudyhall/kanji/models.py:42-44 | save() sets last_reviewed and last_missed to the save time and next_review to its date, and changes no other field (the three clock reads are one instant here) |
| `KanjiModels.NewCard` | kanjistudyhall/kanji/models.py:38-45 | A new card keeps the given collection, kanji and mnemonic, has total_reviews 0 and efactor 2.5, and all three stamps at the creation time |
| `KanjiModels.CardWriteKeepsValid` | kanjistudyhall/kanji/models.py:47-51 | Writing a card row keeps the card table valid exactly when both foreign keys resolve, the counter is in integer range and no other card in its collection shares its kanji or mnemonic |
| `KanjiModels.InsertCard` | kanjistudyhall/kanji/models.py:38-51 | Creating a card fails on a NULL column; otherwise it succeeds exactly when the table with the defaulted new card keeps every card constraint |
| `KanjiModels.UpdateCard` | kanjistudyhall/kanji/models.py:58 | The row rewrite of save() succeeds exactly when the rewritten table keeps every card constraint, and then changes only that card's row |
| `KanjiModels.InsertCardCount` | kanjistudyhall/kanji/tests/test_models.py:249-263 | A successful card insert adds exactly the new key to its collection's card set (so its count grows by one) and leaves every other collection's set as it was |
| `KanjiModels.CardInsertRejectsDuplicates` | kanjistudyhall/kanji/models.py:47-51 | A card with the kanji, or the mnemonic, of a card already in the same collection is refused |
| `KanjiModels.TwoDifferentCardsInOneCollection` | kanjistudyhall/kanji/tests/test_models.py:249-263 | Two cards with different kanji and different mnemonics are both accepted into an empty collection, which then holds exactly two cards |
| `KanjiModels.ScoreReview` | kanjistudyhall/kanji/models.py:53-58 | ValueError exactly when the score is outside 0..5; otherwise total_reviews is one more, the three stamps are the review time, and collection, kanji, mnemonic and efactor are unchanged |
| `KanjiModels.ReviewNeverSchedulesAhead` | kanjistudyhall/kanji/models.py:53-58 | After an accepted score next_review is the review date, so a card due today stays due today whatever the score |
| `KanjiModels.ReviewIsWritten` | kanjistudyhall/kanji/models.py:56-58 | For a card below the counter maximum, the save after an accepted score succeeds and changes only that card's row, which gains one review and today's date as next_review and keeps its efactor |
| `KanjiModels.ReviewPastMaximumRefused` | kanjistudyhall/kanji/models.py:41 | At total_reviews 2147483647 an accepted score still increments the counter in memory, but the database refuses the row |
| `KanjiModels.ReviewSessionCounts` | kanjistudyhall/kanji/models.py:53-58 | Over any sequence of scores, total_reviews grows by exactly the number of scores in 0..5; collection, kanji, mnemonic and efactor never change; a sequence of only rejected scores changes nothing |
| `KanjiModels.ReviewSessionEndsStamped` | kanjistudyhall/kanji/models.py:42-44 | After a sequence ending in an accepted score, all three stamps come from that last review |
| `KanjiStore.Database.CreateUser` | kanjistudyhall/kanji/tests/test_models.py:78 | User.objects.create(username=...) adds the user under the next key exactly when InsertUser accepts the username, and otherwise changes nothing; collections may then name the new user as owner; the store stays valid |
| `KanjiStore.Database.CreateKanji` | kanjistudyhall/kanji/models.py:5-14 | The table gains the row under the next key exactly when InsertKanji accepts it, and is otherwise unchanged; the store stays valid and no other table changes |
| `KanjiStore.Database.CreateCollection` | kanjistudyhall/kanji/models.py:17-28 | The table gains the row exactly when InsertCollection accepts it; the store stays valid and no other table changes |
| `KanjiStore.Database.CreateCard` | kanjistudyhall/kanji/models.py:31-51 | The table gains the defaulted card exactly when InsertCard accepts it; the store stays valid and no other table changes |
| `KanjiStore.Database.WriteCard` | kanjistudyhall/kanji/models.py:58 | An existing card row is replaced exactly when UpdateCard accepts the new row; otherwise the table is unchanged and the call fails with DatabaseError |
| `KanjiStore.KanjiCard.Get` | kanjistudyhall/kanji/models.py:31-45 | A loaded instance holds exactly its row's field values |
| `KanjiStore.KanjiCard.RefreshFromDb` | kanjistudyhall/kanji/tests/test_models.py:150 | Every field of the instance is reloaded from its row |
| `KanjiStore.KanjiCard.Save` | kanjistudyhall/kanji/models.py:42-44 | The instance's stamps become the save time, the other fields are untouched, and the row is rewritten exactly when UpdateCard accepts it |
| `KanjiStore.KanjiCard.SetReviewScore` | kanjistudyhall/kanji/models.py:53-58 | An invalid score fails with ValueError and changes neither the instance nor the table; otherwise the instance takes ScoreReview's values and the row is written exactly when UpdateCard accepts them; only total_reviews, the three stamps and the card table may change |

## Left out

- The SM-2 interval computation, `consecutive_correct`, and
  `next_scheduled_card` ordering are left out. The tests assume them, but `models.py` does not implement
  them.
- Views, URL routing, the collection form, settings, migrations, registration
  and the browser tests are left out. They are web and ORM plumbing with no
  logic of their own.
- `full_clean()` validation is not modelled: empty character, keyword, name or
  mnemonic raises `ValidationError` there. Saving without it accepts these
  values, and that is what the model does.
- Which of `IntegrityError` or `DataError` is raised is not modelled. Both are
  one `DatabaseError`, their common base class in Django, and the model does
  not say which violation PostgreSQL reports first.
- KanjiStore.KanjiCard.SetReviewScore: only integer scores are modelled. Python's `range`
  membership would also accept `3.0` or `True` and reject `2.5`.
- KanjiModels.Stamped: the clock is a parameter (`now: Instant`). In Django
  each `auto_now` field reads the clock separately in its `pre_save`: three
  reads per save, `timezone.now()` for `last_reviewed`, again for
  `last_missed`, then `date.today()` for `next_review`. The model uses one
  `Instant` for all three, so `last_reviewed == last_missed` holds only in the
  model; in the source the two usually differ by microseconds. With
  `TIME_ZONE = 'UTC'` the local date is the UTC date, so `next_review` is the
  date of that instant except across midnight.
- `efactor` is a Python float. It is modelled as a `real`, because the core
  never computes with it.
- Primary keys come from one counter per table, and a counter advances only on
  a successful insert. A PostgreSQL sequence also consumes a value on a failed
  insert.
- The model has no delete operation; the delete views (such as
  `KanjiCardCollectionDeleteView`, whose cascade also removes the collection's
  cards) are left out with the other views. `DoesNotExist` from `get()` and
  `refresh_from_db()`, and the INSERT path that `save()` takes when the row is
  missing, are not modelled: `Get`, `RefreshFromDb`, `Save` and
  `SetReviewScore` require the card's row to exist.
- String length counts Unicode scalar values, as PostgreSQL `varchar(n)` counts
  characters. PostgreSQL's rejection of NUL characters is not modelled.
- The user table is reduced to each user's username, the one constraint the
  kanji tests run into. The other `User` columns, passwords and authentication
  are not part of this model.
- KanjiModels.InsertCard: cards are created only with the field defaults
  (`total_reviews` 0, `efactor` 2.5). Django also accepts explicit values at
  creation, which the INSERT would check against the integer column's range;
  that path is not modelled (an UPDATE through `Save` does check the range).
- PostgreSQL's size limit on an entry of a btree index (about 2.7 kB), which
  makes a very long mnemonic fail the `(collection, mnemonic)` unique index,
  is not modelled: any mnemonic length is accepted.
- Concurrent writers and transactions are not modelled: each operation is one
  atomic step.
