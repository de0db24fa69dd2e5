# Collectors app: a verified model of the server handlers, the price widgets and the maintenance scripts

This project models the core of a trading-card collection manager written in TypeScript. It has three parts:

- an Express/Prisma API server: authentication, cards, packs, collections, decks, wishlists and administration;
- two React components that present prices: the card grid and the price comparison table;
- four maintenance scripts: the OP13 card scraper, the image re-hosting job, the non-OP13 cleanup and the database seed.

The relational database becomes one `Database.Store` object. It holds eight in-memory tables (`Tables.Table`: rows keyed by ids that a per-table counter issues). Each request handler is a method on that store. The method is proved equal to a pure *outcome* function, which returns the HTTP status, the new database state and the created or changed id. The properties the handlers promise are stated on those functions and in lemmas about them:

- the status of each error case, in the handler's order of checks; each handler's statuses form a closed set, so success is forced when no error case applies;
- the exact new state on success, and the unchanged state on every error;
- the invariants each handler keeps. `Database.ValidState` covers the schema's unique constraints, the merge keys of collection, deck and wishlist rows, and the card-to-pack reference. Separate predicates cover the three-copy deck limit and the pack's `total_cards` counter.

The client components become functions over a `Prices.PriceRecord`. The scripts keep their own structure:

- the scraper's extraction loops become a method proved against a fold;
- the image job's batch loop mutates the card table in place;
- the cleanup runs three deletion phases over the store;
- the seed is a sequence of create-if-absent upserts.

Modules: `Common`, `Strings`, `Sequences`, `Tables` (shared helpers), `Database` (store.dfy), `Utils`, `Middleware`, `AuthController`, `AdminController`, `CardController`, `PackController`, `CollectionController`, `DeckController`, `WishlistController`, `Prices`, `CardGrid`, `PriceComparison`, `Scraper`, `ImageMigration`, `Cleanup`, `Seed`.

In three places the code does something a reader might not expect, and the model follows the code:

- `mapCardData` overwrites the type found on the detail page (`Scraper.MappingOverridesEnrichedType`).
- `updateCard` moving a card between packs leaves both packs' `total_cards` stale (`CardController.UpdateCardMoveBreaksCounters`).
- A negative `quantity` on deck removal raises the row (`DeckController.RemoveNegativeQuantityRaisesCopies`).

## Model

| member | source | states |
|---|---|---|
| Common.ParseRole | server/src/controllers/admin.controller.ts:119-122 | a role string is accepted exactly when it is ADMIN or USER, and then names that role |
| Common.ParseZone | server/src/controllers/deck.controller.ts:243-246 | a zone string is accepted exactly when it is MAIN, EXTRA or SIDE, and then names that zone |
| Utils.SuccessResponse | server/src/utils/index.ts:18-24 | success is true, the data is carried, no error |
| Utils.ErrorResponse | server/src/utils/index.ts:29-34 | success is false, the error is carried, no data |
| Utils.ParsePagination | server/src/utils/index.ts:48-54 | page is max(1, page) with default 1; limit is clamped into [1, 100] with default 20; skip = (page - 1) * limit >= 0 |
| Utils.CeilDiv | server/src/utils/index.ts:79 | totalPages is the least number of pages of `limit` items that hold `total` items |
| Utils.PaginatedResponse | server/src/utils/index.ts:74-92 | echoes page, limit and total; totalPages = ceil(total / limit); hasNext iff page < totalPages; hasPrev iff page > 1 |
| Utils.HasNextIffMoreItems | server/src/utils/index.ts:79-89 | hasNext holds exactly when the items before the end of this page are fewer than total |
| Middleware.BearerToken | server/src/middleware/auth.ts:36-41 | the token is absent exactly when the header holds no space; otherwise it is the text after the first space up to the next space or the end (the second space-separated word), and holds no space |
| Middleware.Authenticate | server/src/middleware/auth.ts:28-63 | no header gives 401 "No authorization header provided"; no token gives 401 "No token provided"; no secret gives 500 "Authentication failed"; it passes exactly when the secret is set and verification succeeds, with the decoded claims; an expired token gives 401 "Token expired", a malformed one 401 "Invalid token", any other verification failure 500 "Authentication failed" |
| Middleware.Request.AuthenticateRequest | server/src/middleware/auth.ts:28-63 | `next` is called exactly when nothing was rejected; on a pass `req.user` holds the decoded claims; on a rejection the status is the decision's and `req.user` is unchanged |
| Middleware.RequireAdmin | server/src/middleware/auth.ts:69-81 | passes exactly an ADMIN user; no user gives 401; otherwise 403 |
| Middleware.RequireUser | server/src/middleware/auth.ts:87-100 | passes exactly ADMIN or USER; no user gives 401; otherwise 403 |
| Middleware.AdminPassesUserGuard | server/src/middleware/auth.ts:69-100 | whoever passes `requireAdmin` passes `requireUser` |
| Middleware.GenerateToken | server/src/middleware/auth.ts:105-123 | fails exactly when the secret is unset; signs exactly {id, username, email, role}; the expiry is the configured one when truthy, else 7d |
| Middleware.IssuedTokenAuthenticates | server/src/middleware/auth.ts:28-123 | a token issued by `generateToken` and sent as "Bearer <token>" authenticates to its own claims |
| AuthController.TokenFor | server/src/controllers/auth.controller.ts:61-66 | the token's claims are the stored user's id, username, email and role; no token exactly when the secret is unset |
| AuthController.RegisterOutcome | server/src/controllers/auth.controller.ts:12-77 | 400 exactly when username, email or password is missing or the password is under 6 characters; 409 exactly when a user has the same username or email; errors change nothing; otherwise one active USER is inserted and a token with its claims is issued (500 without a secret, the user already stored) |
| AuthController.Register | server/src/controllers/auth.controller.ts:12-77 | the handler's status, state and token are those of `RegisterOutcome`, and the store stays valid |
| AuthController.RegisterKeepsValid | server/src/controllers/auth.controller.ts:28-58 | registration keeps usernames and emails unique |
| AuthController.Identifier | server/src/controllers/auth.controller.ts:86-87 | the login identifier is the username when truthy, else the email |
| AuthController.Login | server/src/controllers/auth.controller.ts:83-141 | 400 exactly when the identifier or password is missing; otherwise the account looked up is the first whose username or email is the identifier: none gives 401; an inactive one 403; an active one with a non-matching password 401; a matching password 200 with that user's token, or 500 when no token can be signed; no token unless 200 |
| AuthController.DeactivatedNeverLogsIn | server/src/controllers/auth.controller.ts:106-117 | a deactivated account is refused with 403 whatever the password |
| AuthController.GetMe | server/src/controllers/auth.controller.ts:147-184 | 401 without a caller; 404 for an unknown caller; otherwise 200 with the caller's row and the numbers of their decks, collections and wishlist rows |
| AuthController.UpdateMeOutcome | server/src/controllers/auth.controller.ts:190-251 | 401 without a caller; a new password without currentPassword gives 400, for an unknown account 404, with a wrong current password 401; past those checks, 409 exactly when the new email belongs to another account, 500 exactly when the account is gone, and 200 otherwise; errors change nothing; on success only email and password hash change, each only when supplied |
| AuthController.UpdateMe | server/src/controllers/auth.controller.ts:190-251 | the handler's status and state are those of `UpdateMeOutcome`, and the store stays valid |
| AuthController.UpdateMeKeepsValid | server/src/controllers/auth.controller.ts:218-236 | a profile update keeps emails unique |
| AdminController.Latest | server/src/controllers/admin.controller.ts:26-37 | the min(n, rows) newest rows of a table, newest first |
| AdminController.LatestAreNewest | server/src/controllers/admin.controller.ts:26-37 | every row left out of the recent list is older than every row in it |
| AdminController.GetDashboard | server/src/controllers/admin.controller.ts:10-56 | the counts are the sizes of the user, pack, card, collection and deck tables; each recent list has at most 5 entries |
| AdminController.Summary | server/src/controllers/admin.controller.ts:82-97 | a listed user carries its own id, username, email, role and status and its numbers of collections and decks |
| AdminController.Summaries | server/src/controllers/admin.controller.ts:82-97 | one summary per listed id, in order |
| AdminController.NewestFirst | server/src/controllers/admin.controller.ts:82-97 | exactly the matching users, newest first |
| AdminController.GetAllUsers | server/src/controllers/admin.controller.ts:62-108 | 500 exactly for an unknown role or a negative offset; total counts the users matching the case-insensitive username/email search and the role; the page is the offset/take window of the matching users ordered newest first, each row that user's summary, of size min(take, total - offset) |
| AdminController.UpdateUserRoleOutcome | server/src/controllers/admin.controller.ts:114-147 | 400 exactly for a role outside {ADMIN, USER} or the caller's own account; 404 for an unknown user; on success only that user's role changes |
| AdminController.UpdateUserRole | server/src/controllers/admin.controller.ts:114-147 | the handler's status and state are those of `UpdateUserRoleOutcome`, and the store stays valid |
| AdminController.UpdateUserRoleKeepsValid | server/src/controllers/admin.controller.ts:136-140 | a role change keeps the store's constraints |
| AdminController.OwnRoleUnchanged | server/src/controllers/admin.controller.ts:119-129 | an administrator's own role is never changed by this handler |
| AdminController.UpdateUserStatusOutcome | server/src/controllers/admin.controller.ts:153-186 | 400 exactly for a missing flag or self-deactivation; self-activation is allowed; 404 for an unknown user; on success only is_active changes |
| AdminController.UpdateUserStatus | server/src/controllers/admin.controller.ts:153-186 | the handler's status and state are those of `UpdateUserStatusOutcome`, and the store stays valid |
| AdminController.OwnAccountStaysActive | server/src/controllers/admin.controller.ts:158-168 | an active administrator cannot deactivate their own account |
| AdminController.DeleteUserOutcome | server/src/controllers/admin.controller.ts:192-215 | 400 exactly for self-deletion; 404 exactly for an unknown user; a closed status set; otherwise that user is removed along with the cascade of their collections with their entries, their decks with their rows, and their wishlist rows; every other row, packs and cards are unchanged |
| AdminController.DeleteUser | server/src/controllers/admin.controller.ts:192-215 | the handler's status and state, cascade included, are those of `DeleteUserOutcome`, and the store stays valid |
| AdminController.DeletedUsersCollectionsUnreadable | server/src/controllers/admin.controller.ts:208 | once a user is deleted, none of their collections, public ones included, can be read by anyone |
| AdminController.AdministratorKeepsOwnAccount | server/src/controllers/admin.controller.ts:119-208 | no admin handler removes, demotes or deactivates the calling administrator |
| CardController.CatalogueOrderIsPreorder | server/src/controllers/card.controller.ts:47-50 | ordering by set_code then set_position is a total preorder |
| Sequences.ListTake | server/src/controllers/card.controller.ts:22-47 | the page size of the card, pack and user listings: the limit (default 50) when at most 100, else 100; never above 100 |
| CardController.GetAllCards | server/src/controllers/card.controller.ts:10-62 | 500 exactly for an invalid enum filter or negative offset; total counts the cards matching every supplied filter and the search; the page is the offset/take window of the matching cards sorted by set_code then set_position (ties in any order), of size min(take, total - offset); the response echoes the unclamped limit |
| CardController.NegativeLimitExceedsClamp | server/src/controllers/card.controller.ts:22-57 | a negative limit slips past the min(limit, 100) clamp and can return more than 100 cards |
| CardController.SearchCards | server/src/controllers/card.controller.ts:68-102 | 400 exactly for a missing query or one under 2 characters; otherwise 200 with the first min(limit, 50) (default 20) of the cards whose name or card_number contains the query, in id order; a negative take keeps the last ones |
| CardController.GetCardById | server/src/controllers/card.controller.ts:108-129 | 200 with the stored card exactly when the id exists, else 404 |
| CardController.NewCard | server/src/controllers/card.controller.ts:200-231 | the created card takes the supplied card_number, name and pack, with the handler's defaults for the rest |
| CardController.DefaultSetPositionOfNumber | server/src/controllers/card.controller.ts:200-205 | the default set_position of "PREFIX-DIGITS" is DIGITS |
| CardController.CreateCardOutcome | server/src/controllers/card.controller.ts:135-251 | 400 exactly for a missing required field or, number free, an unknown pack; 409 exactly for a duplicate card_number; 500 exactly when the new row has an enum value outside its type; 201 otherwise; errors change nothing; on success one card is inserted and its pack's total_cards grows by 1 |
| CardController.CreateCard | server/src/controllers/card.controller.ts:135-251 | the handler's status and state are those of `CreateCardOutcome`, and the store stays valid |
| CardController.CreateCardKeepsValid | server/src/controllers/card.controller.ts:176-244 | creation keeps card numbers unique and cards in stored packs |
| CardController.CreateCardKeepsCounters | server/src/controllers/card.controller.ts:241-244 | when every pack's total_cards equals its number of cards, creation keeps it so |
| CardController.UpdateCardOutcome | server/src/controllers/card.controller.ts:257-302 | 404 exactly for an unknown card; 409 exactly when changing to a card_number in use; 400 exactly for a move to an unknown pack; 500 exactly when the patched row has an enum value outside its type or another card's number; 200 otherwise, and then only that card changes |
| CardController.UpdateCard | server/src/controllers/card.controller.ts:257-302 | the handler's status and state are those of `UpdateCardOutcome`, and the store stays valid |
| CardController.UpdateCardKeepsValid | server/src/controllers/card.controller.ts:270-295 | an update keeps card numbers unique and cards in stored packs |
| CardController.UpdateCardMoveBreaksCounters | server/src/controllers/card.controller.ts:270-295 | moving a card to another pack leaves the old pack's total_cards one above its real count |
| CardController.UpdateCardSamePackKeepsCounters | server/src/controllers/card.controller.ts:257-302 | an update that does not move the card keeps every pack's total_cards exact |
| CardController.DeleteCardOutcome | server/src/controllers/card.controller.ts:308-332 | 404 exactly for an unknown id, changing nothing; 500 exactly when the card's pack is gone, after the card is removed; otherwise the card is removed and its pack's total_cards drops by 1 |
| CardController.DeleteCard | server/src/controllers/card.controller.ts:308-332 | the handler's status and state are those of `DeleteCardOutcome`, and the store stays valid |
| CardController.DeleteCardKeepsCounters | server/src/controllers/card.controller.ts:313-325 | on a valid store the delete never fails after removing the card, and it keeps total_cards exact |
| CardController.BulkCard | server/src/controllers/card.controller.ts:360-380 | an imported card has valid enum fields, the request's pack and the row's card_number |
| CardController.ImportRow | server/src/controllers/card.controller.ts:352-388 | a row is skipped exactly when its card_number is already stored; otherwise it is created as one inserted card or errors, changing nothing |
| CardController.ImportAll | server/src/controllers/card.controller.ts:352-388 | created + skipped + errors equals the number of rows |
| CardController.ImportAllEffect | server/src/controllers/card.controller.ts:352-391 | after the import card numbers stay unique, the pack's card count grows by `created`, other packs' counts do not change, and old rows are untouched |
| CardController.BulkImportOutcome | server/src/controllers/card.controller.ts:338-401 | 400 exactly for a missing or empty card list or a missing or unknown pack; otherwise every row is counted once and the pack's total_cards grows by `created` |
| CardController.BulkImportCards | server/src/controllers/card.controller.ts:338-401 | the handler's status, state and counts are those of `BulkImportOutcome`, and the store stays valid |
| CardController.ImportRows | server/src/controllers/card.controller.ts:352-388 | the import loop computes `ImportAll` over the card table and changes nothing else |
| CardController.ImportOneRow | server/src/controllers/card.controller.ts:353-387 | one loop iteration computes `ImportRow` and changes nothing else |
| CardController.BulkImportKeepsValid | server/src/controllers/card.controller.ts:338-401 | a bulk import keeps card numbers unique and cards in stored packs |
| CardController.BulkImportKeepsCounters | server/src/controllers/card.controller.ts:389-391 | a bulk import keeps every pack's total_cards exact |
| PackController.ReleaseOrderIsPreorder | server/src/controllers/pack.controller.ts:33 | ordering by release_date descending is a total preorder |
| PackController.GetAllPacks | server/src/controllers/pack.controller.ts:10-47 | 500 exactly for an invalid enum filter or negative offset; total counts the packs matching language, set_type and the title/set_code search; the page is the offset/take window of the matching packs sorted by release date, newest first and undated first (ties in any order), of size min(take, total - offset) |
| PackController.GetPackById | server/src/controllers/pack.controller.ts:53-74 | 200 with the pack and its number of cards exactly when the id exists, else 404 |
| PackController.NewPack | server/src/controllers/pack.controller.ts:110-124 | language defaults to EN, set_type to BOOSTER, total_cards to 0; release_date is null exactly when none is given |
| PackController.CreatePackOutcome | server/src/controllers/pack.controller.ts:80-132 | 400 exactly without set_code or title; 409 exactly for a taken set_code; 500 exactly when language or set_type is outside its enum; 201 otherwise; errors change nothing; on success one pack is inserted |
| PackController.CreatePack | server/src/controllers/pack.controller.ts:80-132 | the handler's status and state are those of `CreatePackOutcome`, and the store stays valid |
| PackController.CreatePackKeepsValid | server/src/controllers/pack.controller.ts:98-124 | creation keeps set codes unique |
| PackController.CreatePackCounters | server/src/controllers/pack.controller.ts:117-120 | a new pack's total_cards is exact exactly when no total_cards was supplied |
| PackController.UpdatePackOutcome | server/src/controllers/pack.controller.ts:138-195 | 404 exactly for an unknown id; 409 exactly when changing to a taken set_code; 500 exactly when the updated row has an enum value outside its type or another pack's set_code; 200 otherwise, and then only that pack changes and an absent release_date is kept |
| PackController.UpdatePack | server/src/controllers/pack.controller.ts:138-195 | the handler's status and state are those of `UpdatePackOutcome`, and the store stays valid |
| PackController.UpdatePackKeepsValid | server/src/controllers/pack.controller.ts:157-181 | an update keeps set codes unique |
| PackController.UpdatePackKeepsCounters | server/src/controllers/pack.controller.ts:172-187 | an update that supplies no total_cards keeps it exact |
| PackController.DeletePackOutcome | server/src/controllers/pack.controller.ts:201-231 | 404 for an unknown id; 400 exactly while the pack has a card, the pack remaining; otherwise exactly that pack is removed |
| PackController.DeletePack | server/src/controllers/pack.controller.ts:201-231 | the handler's status and state are those of `DeletePackOutcome`, and the store stays valid |
| PackController.DeletePackKeepsCounters | server/src/controllers/pack.controller.ts:206-224 | deletion keeps the store valid and total_cards exact |
| CollectionController.GetCollectionById | server/src/controllers/collection.controller.ts:36-86 | 401 without a caller; readable exactly by the owner or when public (else 404); the entries are exactly the collection's, each once, newest first (position k holds the row of the k-th id of a decreasing sequence of exactly the collection's entry ids) |
| CollectionController.CreateCollectionOutcome | server/src/controllers/collection.controller.ts:92-130 | 401 without a caller; 400 exactly without a name; 409 exactly for a name the caller already uses; 201 otherwise; errors change nothing; on success one collection is inserted |
| CollectionController.CreateCollection | server/src/controllers/collection.controller.ts:92-130 | the handler's status and state are those of `CreateCollectionOutcome`, and the store stays valid |
| CollectionController.UpdateCollectionOutcome | server/src/controllers/collection.controller.ts:136-177 | 401 without a caller; 404 unless owned; 409 exactly when the name changes to one of the caller's other collections; 200 otherwise, and then only that collection changes |
| CollectionController.UpdateCollection | server/src/controllers/collection.controller.ts:136-177 | the handler's status and state are those of `UpdateCollectionOutcome`, and the store stays valid |
| CollectionController.DeleteCollectionOutcome | server/src/controllers/collection.controller.ts:183-209 | 401 without a caller; 404 unless owned; 200 otherwise, and then the collection and exactly its entries are removed, every other row unchanged |
| CollectionController.DeleteCollection | server/src/controllers/collection.controller.ts:183-209 | the handler's status and state are those of `DeleteCollectionOutcome`, and the store stays valid |
| CollectionController.NewEntry | server/src/controllers/collection.controller.ts:223-232 | a new entry's key is the request's key with defaults NEAR_MINT, EN and not first edition |
| CollectionController.AddEntryOutcome | server/src/controllers/collection.controller.ts:215-297 | 401 without a caller; 400 exactly without card_id or, for an owned collection, an unknown card; 404 exactly for a collection the caller does not own; 500 exactly for a condition or language outside its enum; otherwise an entry with the same key grows by the quantity (200), or one new entry is created when no entry has that key (201) |
| CollectionController.AddCardToCollection | server/src/controllers/collection.controller.ts:215-297 | the handler's status and state are those of `AddEntryOutcome`, and the store stays valid |
| CollectionController.AddEntryHeld | server/src/controllers/collection.controller.ts:257-291 | after an add the collection holds exactly `quantity` more copies of the card |
| CollectionController.AddEntryKeepsValid | server/src/controllers/collection.controller.ts:257-291 | adding keeps entries unique per (collection, card, condition, language, first edition) |
| CollectionController.RemoveEntryOutcome | server/src/controllers/collection.controller.ts:303-351 | 401 without a caller; 404 unless owned, or exactly when no entry has the card; the entry changed is the first entry of the card, regardless of condition; removing at least its quantity deletes it, otherwise its quantity drops by exactly that amount |
| CollectionController.RemoveCardFromCollection | server/src/controllers/collection.controller.ts:303-351 | the handler's status and state are those of `RemoveEntryOutcome`, and the store stays valid |
| CollectionController.RemoveEntryHeld | server/src/controllers/collection.controller.ts:333-345 | the copies held drop by the quantity removed, capped at the entry's quantity |
| CollectionController.RemoveEntryKeepsValid | server/src/controllers/collection.controller.ts:333-345 | removal keeps entries unique per key |
| DeckController.GetDeckById | server/src/controllers/deck.controller.ts:36-98 | 401 without a caller; readable exactly by the owner or when public (else 404); the rows are exactly the deck's, and main, extra and side are those in each zone |
| DeckController.ZonesPartition | server/src/controllers/deck.controller.ts:86-91 | main, extra and side together are a permutation of the deck's rows |
| DeckController.CreateDeckOutcome | server/src/controllers/deck.controller.ts:104-143 | 401 without a caller; 400 exactly without a name; 409 exactly for a name the caller already uses; 201 otherwise; errors change nothing; on success one deck is inserted |
| DeckController.CreateDeck | server/src/controllers/deck.controller.ts:104-143 | the handler's status and state are those of `CreateDeckOutcome`, and the store stays valid |
| DeckController.UpdateDeckOutcome | server/src/controllers/deck.controller.ts:149-190 | 401 without a caller; 404 unless owned; 409 exactly when the name changes to one of the caller's other decks; 200 otherwise, and then only that deck changes |
| DeckController.UpdateDeck | server/src/controllers/deck.controller.ts:149-190 | the handler's status and state are those of `UpdateDeckOutcome`, and the store stays valid |
| DeckController.DeleteDeckOutcome | server/src/controllers/deck.controller.ts:196-222 | 401 without a caller; 404 unless owned; 200 otherwise, and then the deck and exactly its rows are removed, every other row unchanged |
| DeckController.DeleteDeck | server/src/controllers/deck.controller.ts:196-222 | the handler's status and state are those of `DeleteDeckOutcome`, and the store stays valid |
| DeckController.DeleteDeckKeepsLimit | server/src/controllers/deck.controller.ts:196-222 | deleting a deck keeps every deck within three copies per card |
| DeckController.AddCardOutcome | server/src/controllers/deck.controller.ts:228-307 | 401 without a caller; 400 exactly without card_id, for a zone outside MAIN/EXTRA/SIDE (defaults quantity 1, zone MAIN), or, for an owned deck, an unknown card or copies over all zones plus the quantity above 3; 404 exactly for a deck not owned; otherwise an existing (deck, card, zone) row grows (200), or exactly one row is created (201); errors change nothing |
| DeckController.AddCardToDeck | server/src/controllers/deck.controller.ts:228-307 | the handler's status and state are those of `AddCardOutcome`, and the store stays valid |
| DeckController.AddCardCopies | server/src/controllers/deck.controller.ts:267-301 | a successful add raises the card's copies in the deck by exactly the quantity, to at most 3 |
| DeckController.AddCardKeepsLimit | server/src/controllers/deck.controller.ts:267-275 | adding keeps every deck within three copies of every card |
| DeckController.AddCardKeepsRowsNonNegative | server/src/controllers/deck.controller.ts:278-301 | a non-negative add keeps every row's quantity non-negative |
| DeckController.AddCardKeepsValid | server/src/controllers/deck.controller.ts:278-301 | adding keeps one row per (deck, card, zone) |
| DeckController.RemoveCardOutcome | server/src/controllers/deck.controller.ts:313-362 | 401 without a caller; 404 unless owned; 500 exactly for a zone query that is not a zone; otherwise 404 exactly when no row matches (deck, card), narrowed by zone when given, and the row changed is the first that matches; the quantity defaults to the row's; removing at least it deletes the row, otherwise it drops by exactly that amount; errors change nothing |
| DeckController.RemoveCardFromDeck | server/src/controllers/deck.controller.ts:313-362 | the handler's status and state are those of `RemoveCardOutcome`, and the store stays valid |
| DeckController.RemoveCardKeepsLimit | server/src/controllers/deck.controller.ts:344-357 | a non-negative removal keeps the three-copy limit and non-negative rows |
| DeckController.RemoveNegativeQuantityRaisesCopies | server/src/controllers/deck.controller.ts:344-357 | a negative quantity raises a row of 3 copies to 4, past the limit |
| DeckController.RemoveCardKeepsValid | server/src/controllers/deck.controller.ts:344-357 | removal keeps one row per (deck, card, zone) |
| WishlistController.GetMyWishlist | server/src/controllers/wishlist.controller.ts:10-43 | exactly the caller's rows, newest first |
| WishlistController.AddToWishlistOutcome | server/src/controllers/wishlist.controller.ts:49-111 | 401 without a caller; 400 exactly without card_id or for an unknown card; 409 exactly when the pair exists; 201 otherwise, with one row created and price alerts off by default |
| WishlistController.AddToWishlist | server/src/controllers/wishlist.controller.ts:49-111 | the handler's status and state are those of `AddToWishlistOutcome`, and the store stays valid |
| WishlistController.AddToWishlistKeepsValid | server/src/controllers/wishlist.controller.ts:76-92 | adding keeps (user, card) pairs unique |
| WishlistController.UpdateWishlistOutcome | server/src/controllers/wishlist.controller.ts:117-151 | 401 without a caller; 404 exactly when the pair is absent; 200 otherwise, and then only the price-alert fields of that row change |
| WishlistController.UpdateWishlistItem | server/src/controllers/wishlist.controller.ts:117-151 | the handler's status and state are those of `UpdateWishlistOutcome`, and the store stays valid |
| WishlistController.RemoveFromWishlistOutcome | server/src/controllers/wishlist.controller.ts:157-182 | 401 without a caller; 404 exactly when the pair is absent; 200 otherwise, and then exactly that row is removed |
| WishlistController.RemoveFromWishlist | server/src/controllers/wishlist.controller.ts:157-182 | the handler's status and state are those of `RemoveFromWishlistOutcome`, and the store stays valid |
| WishlistController.RemoveThenAbsent | server/src/controllers/wishlist.controller.ts:166-175 | after a successful removal the pair is no longer on the wishlist |
| Prices.FirstTruthy | client/src/components/PriceComparison.tsx:16 | `x \|\| y` on optional prices: x when it is a non-zero number, else y |
| CardGrid.Quote | client/src/components/CardGrid.tsx:17-21 | a field contributes one quote exactly when it is truthy, and never a zero |
| CardGrid.Candidates | client/src/components/CardGrid.tsx:12-21 | no quotes without prices; at most five, none of them zero |
| CardGrid.MinOf | client/src/components/CardGrid.tsx:25 | the minimum is one of the quotes and no larger than any |
| CardGrid.LowestPrice | client/src/components/CardGrid.tsx:12-27 | the zero sentinel without quotes; otherwise a quote no larger than any other |
| CardGrid.GetLowestPrice | client/src/components/CardGrid.tsx:12-27 | the method computes `LowestPrice` |
| CardGrid.CollectQuotes | client/src/components/CardGrid.tsx:15-21 | the pushes build exactly the truthy quotes, in order |
| CardGrid.Minimum | client/src/components/CardGrid.tsx:25 | the loop computes the minimum of the list |
| CardGrid.ZeroQuoteIgnored | client/src/components/CardGrid.tsx:21 | a zero Yuyu-tei price does not change the lowest price |
| CardGrid.GetListingsCount | client/src/components/CardGrid.tsx:29-38 | 0 without prices; otherwise the sum of the truthy TCGplayer and Cardmarket listings only |
| CardGrid.ParseSortMode | client/src/components/CardGrid.tsx:120-142 | name, rarity and price select their comparators; anything else sorts by set release |
| CardGrid.RarityRank | client/src/components/CardGrid.tsx:124-136 | ranks lie in 0..10, COMMON is 1 and STARFOIL_RARE 10 |
| CardGrid.ComparatorIsPreorder | client/src/components/CardGrid.tsx:119-149 | every sort mode's comparator is a total preorder |
| CardGrid.SetReleaseTransitive | client/src/components/CardGrid.tsx:140-148 | the set-release order is transitive |
| CardGrid.SameSetByPosition | client/src/components/CardGrid.tsx:142-148 | within one set the order is the integer value of set_position, non-numeric counting as 0 |
| CardGrid.SortInPlace | client/src/components/CardGrid.tsx:119-149 | the array ends sorted and a permutation of its old contents |
| CardGrid.SortedAndFilteredCards | client/src/components/CardGrid.tsx:115-156 | the result is sorted; with what the page limit drops it is a permutation of the fetched list; all keeps everything, otherwise the first min(n, perPage) are kept and none dropped sorts before them |
| PriceComparison.ConvertJpyToUsd | client/src/components/PriceComparison.tsx:89-93 | a present price times 0.0067; an absent one gives NaN |
| PriceComparison.ConvertJpyToEur | client/src/components/PriceComparison.tsx:95-99 | a present price times 0.0062; an absent one gives NaN |
| PriceComparison.ConversionsAgree | client/src/components/PriceComparison.tsx:89-99 | the two conversions stand in the ratio 67:62 and both preserve order |
| PriceComparison.EitherOrNotAvailable | client/src/components/PriceComparison.tsx:16 | the first truthy of two prices, else N/A exactly when neither is truthy |
| PriceComparison.TcgRowCount | client/src/components/PriceComparison.tsx:12-28 | TCGplayer adds no row exactly when absent, and at most two |
| PriceComparison.PriceRows | client/src/components/PriceComparison.tsx:9-48 | rows appear in the order TCGplayer (Standard, then Alternative Print when present), Cardmarket, Yuyu-tei; the list is empty exactly when all three sources are absent; TCGplayer rows have no EUR price |
| Scraper.CardNum | server/scripts/scrape-op13.ts:239 | the captured digits left-padded with zeros to at least 3 characters |
| Scraper.CardNumber | server/scripts/scrape-op13.ts:239-240 | "OP13-" followed by the padded digits |
| Scraper.CardNumIdempotent | server/scripts/scrape-op13.ts:239 | padding is idempotent and leaves 3 or more digits as they are |
| Scraper.ShortNumbersCollide | server/scripts/scrape-op13.ts:239-246 | "7", "07" and "007" give the same card number, so the later ones are dropped as duplicates |
| Scraper.NameFromAlt | server/scripts/scrape-op13.ts:252-256 | the trimmed alt text when it has at least 2 characters, else "Card NNN" |
| Scraper.FromImage | server/scripts/scrape-op13.ts:229-271 | an image-derived card carries the normalised number, the padded position, the image src, JP and OP13 |
| Scraper.FromLink | server/scripts/scrape-op13.ts:279-323 | a link-derived card is named "Card NNN" and uses the link's image, or else the CDN URL built from the padded number |
| Scraper.ImageNumber | server/scripts/scrape-op13.ts:232-240 | an image yields a number exactly when its src contains one, and it is the card's number |
| Scraper.LinkNumber | server/scripts/scrape-op13.ts:281-289 | a link yields a number exactly when its href contains one, and it is the card's number |
| Scraper.ExtractCards | server/scripts/scrape-op13.ts:226-323 | card numbers are distinct; they are exactly the numbers found in images and links; a number found in an image comes from its first image, otherwise from its first link |
| Scraper.CollectStep | server/scripts/scrape-op13.ts:243-258 | one iteration appends the source's card and records its number exactly when it has an unseen number |
| Scraper.CollectSeen | server/scripts/scrape-op13.ts:243-246 | the seen-set ends as the start set plus every number found |
| Scraper.CollectDistinct | server/scripts/scrape-op13.ts:243-246 | the seen-set equals the numbers of the collected cards, which stay distinct, and earlier cards are kept |
| Scraper.FromFirstExtends | server/scripts/scrape-op13.ts:243-246 | a card taken from the first occurrence of its number stays so when sources are appended |
| Scraper.CollectFirst | server/scripts/scrape-op13.ts:243-246 | every collected card comes from the first source with its number |
| Scraper.ExtractionFacts | server/scripts/scrape-op13.ts:226-323 | the two passes together give distinct numbers, all numbers found, image-first precedence |
| Scraper.AppendNew | server/scripts/scrape-op13.ts:243-258 | appending a card with an unseen number keeps numbers distinct |
| Scraper.ColorAttribute | server/scripts/scrape-op13.ts:407-412 | the first listed colour found decides: Red FIRE, Blue WATER, Green EARTH, Purple or Black DARK, Yellow LIGHT; none of them gives no attribute |
| Scraper.RedWins | server/scripts/scrape-op13.ts:407 | a colour list containing Red is FIRE whatever else it lists |
| Scraper.ReadTypeLine | server/scripts/scrape-op13.ts:381-412 | no type line gives a MONSTER Character; Leader and Character are MONSTERs with level = life or cost; Event, Stage and Don are SPELLs; the attribute comes from the colours |
| Scraper.PageDetails | server/scripts/scrape-op13.ts:447-457 | the details carry the page name as both names, the type-line reading, power, text and traits |
| Scraper.KeepTrimmed | server/scripts/scrape-op13.ts:472 | the recursive pass over the parts equals the parts trimmed, with the empty ones dropped, in order |
| Scraper.TrimmedTraits | server/scripts/scrape-op13.ts:472 | every trait that survives trimming and filtering is non-empty, has no space at either end and holds no '/' when no part does |
| Scraper.Traits | server/scripts/scrape-op13.ts:472 | the result is exactly the parts of the traits string split on '/', trimmed, with the empty ones dropped, in order; each is non-empty, has no space at either end and no '/' |
| Scraper.TrimKeepsOut | server/scripts/scrape-op13.ts:472 | trimming never introduces the separator |
| Scraper.Enrich | server/scripts/scrape-op13.ts:461-476 | a failed enrichment returns the card unchanged; name, Japanese name, card type, monster type, attribute, level, atk and card text each take the detail value when truthy, else keep the card's; traits replace the abilities only when present; number, set, position, image, rarity, frame, legality, ban status and language are never changed |
| Scraper.EnrichIdempotent | server/scripts/scrape-op13.ts:461-473 | merging the same details twice equals merging them once |
| Scraper.MapRarity | server/scripts/scrape-op13.ts:513-522 | the fixed rarity table, unknown values giving COMMON |
| Scraper.MapCardData | server/scripts/scrape-op13.ts:495-531 | only card_type, monster_type, frame_color and rarity change; a Leader name gives Leader and EFFECT, an Event name gives SPELL, otherwise MONSTER, Character and NORMAL |
| Scraper.MappingOverridesEnrichedType | server/scripts/scrape-op13.ts:495-531 | a card the detail page read as a SPELL becomes a MONSTER again unless its name says Event |
| ImageMigration.IsThirdPartyUrl | server/scripts/download-and-upload-images.ts:106-109 | true exactly for a present URL containing the CDN host, so false for null or empty |
| ImageMigration.GetImagePath | server/scripts/download-and-upload-images.ts:114-124 | "folder/filename", the folder being the text before the first '-', the file name ending _JP.webp, _JP_small.webp or _JP_high.webp by size |
| ImageMigration.PathParts | server/scripts/download-and-upload-images.ts:114-124 | the folder holds no '/', so the path splits back into folder and file name |
| ImageMigration.ImagePathInjective | server/scripts/download-and-upload-images.ts:114-124 | distinct card numbers or sizes never share a storage path |
| ImageMigration.Selection | server/scripts/download-and-upload-images.ts:143-163 | exactly the cards with an image_url and any of the three URLs third-party, in id order |
| ImageMigration.Batches | server/scripts/download-and-upload-images.ts:178-180 | each batch holds 1 to 5 cards |
| ImageMigration.BatchesCover | server/scripts/download-and-upload-images.ts:178-180 | the batches, concatenated, are the selected cards exactly once, in order |
| ImageMigration.TallyAccounts | server/scripts/download-and-upload-images.ts:173-230 | successes plus errors equal the cards whose image_url is third-party, at most the selection; one error entry per error |
| ImageMigration.MigratedDomain | server/scripts/download-and-upload-images.ts:199-207 | the job neither adds nor removes cards |
| ImageMigration.MigratedRows | server/scripts/download-and-upload-images.ts:186-230 | each card ends re-hosted when it was attempted and its upload succeeded, and unchanged otherwise |
| ImageMigration.RehostedLeavesCdn | server/scripts/download-and-upload-images.ts:201-207 | a re-hosted card has image_url and image_url_small set to the new URL, neither third-party, with its number and pack kept |
| ImageMigration.MigratedKeepsValid | server/scripts/download-and-upload-images.ts:199-207 | the job keeps the store's constraints |
| ImageMigration.MigrateImages | server/scripts/download-and-upload-images.ts:129-237 | only the card table changes, to the migrated table over the selection; the counts and errors are the tally of that run; the store stays valid |
| ImageMigration.ProcessBatch | server/scripts/download-and-upload-images.ts:179-233 | one batch advances the table and the tally by its cards |
| ImageMigration.ProcessCard | server/scripts/download-and-upload-images.ts:183-230 | one card is uploaded and rewritten when its fetched image_url is third-party, counted as success or error |
| Cleanup.CleanUp | server/scripts/cleanup-non-op.ts:9-86 | exactly the non-OP13 packs are removed; exactly the cards whose pack was OP13 remain, unchanged; nothing else changes; the reported remainder is the number of OP13 cards at the start; the store stays valid |
| Cleanup.DeleteCardsOf | server/scripts/cleanup-non-op.ts:33-41 | the first loop removes exactly the cards of the selected packs |
| Cleanup.DeletePacks | server/scripts/cleanup-non-op.ts:43-49 | the second loop removes exactly the selected packs |
| Cleanup.PacksLeft | server/scripts/cleanup-non-op.ts:14-49 | the packs left are the old packs whose set_code is OP13 |
| Cleanup.CardsLeft | server/scripts/cleanup-non-op.ts:33-64 | after the orphan deletion the cards left are exactly those whose pack was OP13 |
| Cleanup.RemainingCount | server/scripts/cleanup-non-op.ts:66-73 | the count taken at the end equals the number of OP13 cards before the cleanup |
| Cleanup.KeptValid | server/scripts/cleanup-non-op.ts:33-64 | the cleanup keeps every remaining card in a stored pack and the unique constraints |
| Cleanup.OnlyKeptSurvive | server/scripts/cleanup-non-op.ts:14-64 | a pack survives exactly when its set_code is OP13, and a card exactly when its pack's is |
| Seed.UpsertUser | server/prisma/seed.ts:13-23 | an existing username leaves the table as it is; otherwise the user is inserted, or the create fails exactly when another user has its email; existing rows never change and the only new row is this user |
| Seed.UpsertPack | server/prisma/seed.ts:50-62 | an existing set_code leaves the table as it is; otherwise the pack is inserted; existing rows never change |
| Seed.SeedRun | server/prisma/seed.ts:12-62 | only users and packs change; after a full run admin, user001 and LOB exist; a failed run leaves packs unchanged |
| Seed.RunSeed | server/prisma/seed.ts:6-75 | the script's effect and success are those of `SeedRun`, and the store stays valid |
| Seed.SeedKeepsValid | server/prisma/seed.ts:12-62 | seeding keeps usernames, emails and set codes unique |
| Seed.SeedIdempotent | server/prisma/seed.ts:15-53 | running the seed again, with any password hashes, changes nothing and ends the same way |
| Seed.SeedLeavesExisting | server/prisma/seed.ts:13-62 | stored rows never change; the only rows added are admin (ADMIN, active), user001 (USER, active) and the LOB pack with 126 cards, each only when its key was absent |

## Left out

- The database and Prisma: tables are in-memory maps with counter-issued ids standing in for UUIDs; `findFirst` picks the lowest id; timestamps become id order (newest = highest id).
- Foreign keys other than card-to-pack are not invariants of the store. The cascades are written out in the handlers that delete: a user takes their collections, decks and wishlist rows with them, and a collection or deck takes its rows. A deleted card's entries, deck rows and wishlist rows stay behind, as they do in the system.
- Concurrency: each handler is one atomic step; the races of check-then-write sequences and `Promise.all` are not modelled (parallel reads are sequential).
- bcrypt and jsonwebtoken: hashing, password comparison, signing and verification are parameters; only the middleware's mapping of verification outcomes is modelled.
- HTTP plumbing: routes, JSON bodies, response messages other than the middleware's, and logging are left out; handlers return a status and a state.
- Number parsing: numeric query parameters arrive as optional integers, so a `parseInt` that returns NaN on a query is not modelled; the card grid's `parseInt(...) || 0` is `Strings.ParseIntOrZero`.
- Card columns: konami_id, name_jp, name_cn, name_kor, rank, link_rating, link_arrows, pendulum_scale, atk, def, spell_type, trap_type, pendulum_effect, image_blurhash and the prices JSON of a card are passed through by create and update and never tested; the model's card does not carry them.
- Pack columns: title_jp, title_cn, title_kor, cover_image, cover_image_small and cover_blurhash are passed through by create and update and never tested; the model's pack does not carry them.
- PriceComparison.ConvertJpyToUsd: the yen price is an optional field, so an absent price converts to NaN; a JSON `null` price, which would convert to 0.00, is outside the declared type and not modelled.
- PriceComparison.ConvertJpyToEur: as for the dollar conversion, a JSON `null` price is not modelled.
- Floating point: prices are reals; `toFixed(2)` and `parseFloat` rounding are not modelled.
- `localeCompare`: modelled as plain lexicographic order on character codes.
- Case-insensitive search: lowercasing covers ASCII letters only.
- getMyCollections, getMyDecks and the route files: plain listing by owner, not part of this model.
- Scraper: Puppeteer, scrolling, the regular-expression matches (taken as given captured strings), the DOM queries of the detail page (its name, type line, power, text and traits string arrive as values), and the main upsert loop that writes the scraped cards are not modelled; `mapCardData`'s `toLowerCase` is the ASCII lowering of `Strings.Lower`.
- ImageMigration.MigrateImages: the download and the storage upload are one function parameter returning the public URL or a failure; the error message of each failure and the local file moves are not kept; batches run sequentially.
- ImageMigration.MigrateImages: the tally records the card number of each failure but not the error text.
- Cleanup.CleanUp: the per-pack card counts printed before deletion and the 175-card warning are console output only.
- Seed: the pack's Japanese title is not a field of the model's pack; the seed's console summary is output only.
- Seed.RunSeed: a failed upsert stops the run as the script's exit does; the database error itself is not modelled.
- CardController.NegativeLimitExceedsClamp: a negative `take` is modelled as Prisma's take-from-the-end, not its exact row order.
