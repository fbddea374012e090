# Gumroad decision rules and data transformations, modelled in Dafny

This project models the parts of the Gumroad creator platform that make exact decisions or
transform data, and proves what they promise:

- **Unclaimed-balance collection** (`reclamation.dfy`, module `Reclamation`). A scheduled job
  walks the US payment-processor merchant accounts. It keeps the candidates: a Stripe account
  in the US, with a processor id, not a Connect account, with no collection marker yet, and
  created before the inactivity cutoff. For each candidate it applies the dormancy guards in
  order: local sales and payouts, processor account type, processor account creation, last
  payout, last charge. A dormant account with a positive balance has that balance transferred
  to the platform, the transfer id recorded as its one-way marker, and the user's unpaid USD
  balance rows re-pointed to the platform account. The database is a `Store` class whose
  `Perform` loop is proved equal to the functional `Run`. Properties about `Run` are proved as
  lemmas:
  - guard order, and no query made after a failed guard;
  - a frame: only the accounts transferred from gain a marker, every other account is left as
    it was, and exactly the transferred accounts' users' unpaid USD rows held against those
    accounts move;
  - conservation of money;
  - idempotency across runs.
- **Country compliance utilities** (`compliance.rb`, module `Compliance`):
  - OFAC and fraud-risk blocked lists;
  - the country select list and its "(not supported)" suffix;
  - flag emoji from Regional Indicator Symbols;
  - historical names;
  - subdivision lookup that ignores case;
  - subdivision and prefecture select lists;
  - taxable US states and the tax-regime lists.
- **Community chat page** (`Communities/Index.tsx`, module `Communities`):
  - the merge of server and live messages: deleted ids dropped, the newer edit wins, sorted by
    creation time;
  - upsert and removal of live messages;
  - the mark-as-read and send guards;
  - the seller switcher lists;
  - scroll anchors.
- **Payout form decision tables** (`AccountDetailsSection.tsx`, module `AccountDetails`):
  - business types;
  - state, province and prefecture selects;
  - tax-id labels and length bounds;
  - which sections and fields show;
  - the date-of-birth option ranges.
- **Analytics product picker** (`ProductsPopover.tsx`, module `ProductsPopover`): select-all,
  select-one and toggle-all, and the "All products" checkbox.
- **Churn analytics** (`product_scope.rb`, module `ChurnProductScope`; `churn_policy.rb`,
  module `ChurnPolicy`):
  - the memoised product scope: subscription products, the product map, the first-sale and
    earliest-analytics dates;
  - the access rule.

Shared helpers: `Wrappers` (Option, Result), `Text` (lexicographic order, ASCII downcase,
de-duplication by key) and `Sorting` (a stable insertion sort by key under a total preorder).

External services and inputs are parameters:
- the Stripe answers (`Reclamation.Env.processor`);
- the local sale and payment times (`Env.activity`);
- the ISO 3166 country data (`Compliance.Table`);
- timezone conversion (`localDate`);
- the feature flag and the role predicates.

Time is an integer; the job reads a single `now`.

## Model

| member | source | states |
|---|---|---|
| Reclamation.Max | app/sidekiq/collect_unclaimed_balances_of_inactive_stripe_accounts_job.rb:19-20 | the larger of the last sale and last payment times (a missing time counts as 0) |
| Reclamation.Assess | app/sidekiq/collect_unclaimed_balances_of_inactive_stripe_accounts_job.rb:19-37 | the processor calls made are a prefix of account, payouts, charges, balance, transfer, in that order; a transfer is created iff the account is collected; a collected amount is `available[0] + pending[0]` and positive; recent local activity skips before any processor call; each later failed guard stops the calls at its own: a standard or recently created account after the account call, a recent payout after the payout list, a recent charge after the charge list, no positive sum or an empty balance list after the balance call |
| Reclamation.CollectsIffDormantWithFunds | app/sidekiq/collect_unclaimed_balances_of_inactive_stripe_accounts_job.rb:19-37 | an account is collected exactly when every guard finds it dormant and both balance lists are non-empty with a positive sum |
| Reclamation.ActivityAtCutoffIsDormant | app/sidekiq/collect_unclaimed_balances_of_inactive_stripe_accounts_job.rb:20-31 | activity exactly at the cutoff never triggers a recency skip: every comparison is a strict `>` |
| Reclamation.OnlyQueriedAnswersMatter | app/sidekiq/collect_unclaimed_balances_of_inactive_stripe_accounts_job.rb:23-31 | the guards short-circuit: answers to calls the assessment did not make cannot change it |
| Reclamation.RepointConserves | app/sidekiq/collect_unclaimed_balances_of_inactive_stripe_accounts_job.rb:51-53 | re-pointing adds to the platform account exactly the unpaid USD amount the merchant account held, removes it from the merchant account, and leaves no unpaid USD there |
| Reclamation.Step | app/sidekiq/collect_unclaimed_balances_of_inactive_stripe_accounts_job.rb:18-53 | one loop iteration keeps the number of account and balance rows |
| Reclamation.StepTransfer | app/sidekiq/collect_unclaimed_balances_of_inactive_stripe_accounts_job.rb:12-53 | an iteration changes no other account; one that transfers does so from its own unmarked, dormant candidate account, marks it with the transfer id, moves a positive amount and re-points exactly that user's unpaid USD rows held against the account; a step without a transfer (a skip, or an abort) changes nothing |
| Reclamation.DormantCandidateCollects | app/sidekiq/collect_unclaimed_balances_of_inactive_stripe_accounts_job.rb:19-46 | an unmarked dormant candidate whose balance answer sums to a positive amount is transferred from, for that amount, without an abort |
| Reclamation.RunFrom | app/sidekiq/collect_unclaimed_balances_of_inactive_stripe_accounts_job.rb:11-55 | the loop from a position on keeps the number of account and balance rows |
| Reclamation.EvolvesTransitive | app/sidekiq/collect_unclaimed_balances_of_inactive_stripe_accounts_job.rb:46-53 | the allowed changes (a marker added, an unpaid USD row moved to the platform) compose |
| Reclamation.RunOnlyMarksAndMoves | app/sidekiq/collect_unclaimed_balances_of_inactive_stripe_accounts_job.rb:46-53 | a frame: markers are only added to unmarked accounts, a marked account stays as it was, a balance row only moves when it is unpaid USD (which rows move is `RunMovesExactly`) |
| Reclamation.MovedByFrame | app/sidekiq/collect_unclaimed_balances_of_inactive_stripe_accounts_job.rb:51 | accounts that differ only where no transfer points move the same rows |
| Reclamation.RunMovesExactly | app/sidekiq/collect_unclaimed_balances_of_inactive_stripe_accounts_job.rb:46-53 | a balance row ends re-pointed to the platform account exactly when it is an unpaid USD row of the user of an account the run transferred from, held against that account; every other row is unchanged |
| Reclamation.HeldNone | app/sidekiq/collect_unclaimed_balances_of_inactive_stripe_accounts_job.rb:51 | with no matching row, nothing of the user's unpaid USD balance is held against the account |
| Reclamation.RunEmptiesTransferredAccounts | spec/sidekiq/collect_unclaimed_balances_of_inactive_stripe_accounts_job_spec.rb:23-28 | after the run no unpaid USD balance of a transferred account's user is held against that account |
| Reclamation.MarkersPersist | app/sidekiq/collect_unclaimed_balances_of_inactive_stripe_accounts_job.rb:16 | an account that already has a marker leaves the run exactly as it entered it |
| Reclamation.TransfersAreMarked | app/sidekiq/collect_unclaimed_balances_of_inactive_stripe_accounts_job.rb:37-46 | every transfer comes from an account unmarked before the run, is positive, and leaves the transfer id as that account's marker |
| Reclamation.UntransferredAccountsUnchanged | app/sidekiq/collect_unclaimed_balances_of_inactive_stripe_accounts_job.rb:19-37 | an account the run made no transfer from leaves the run exactly as it entered it, so a skipped account stays a candidate for later runs |
| Reclamation.TransfersFromDormantCandidates | app/sidekiq/collect_unclaimed_balances_of_inactive_stripe_accounts_job.rb:12-31 | every transfer comes from a candidate account (Stripe, US, processor id, not Connect, unmarked, created before the cutoff) that passed every dormancy guard |
| Reclamation.RunTwiceTransfersOnce | app/sidekiq/collect_unclaimed_balances_of_inactive_stripe_accounts_job.rb:16 | a second run never transfers again from an account the first run transferred from |
| Reclamation.EvolvedTotal | app/sidekiq/collect_unclaimed_balances_of_inactive_stripe_accounts_job.rb:51-53 | moving rows between accounts keeps the sum of all balances |
| Reclamation.RunConservesTotal | spec/sidekiq/collect_unclaimed_balances_of_inactive_stripe_accounts_job_spec.rb:23-28 | the run keeps the total of all balance rows |
| Reclamation.Store.constructor | app/sidekiq/collect_unclaimed_balances_of_inactive_stripe_accounts_job.rb:11 | the store holds the given accounts and balances |
| Reclamation.Store.RecordTransfer | app/sidekiq/collect_unclaimed_balances_of_inactive_stripe_accounts_job.rb:46 | only that account's marker changes, to the transfer id |
| Reclamation.Store.RepointBalances | app/sidekiq/collect_unclaimed_balances_of_inactive_stripe_accounts_job.rb:51-53 | the balances become their re-pointed version; accounts are unchanged |
| Reclamation.Store.ProcessAccount | app/sidekiq/collect_unclaimed_balances_of_inactive_stripe_accounts_job.rb:19-53 | the in-place iteration leaves the state, transfer and abort flag of `Step` |
| Reclamation.Store.Advance | app/sidekiq/collect_unclaimed_balances_of_inactive_stripe_accounts_job.rb:18-53 | one turn of the loop: either the exception stops the run here, or the run continues from the next account after this turn's transfer |
| Reclamation.Store.Perform | app/sidekiq/collect_unclaimed_balances_of_inactive_stripe_accounts_job.rb:11-55 | the in-place loop leaves the state and transfers of `Run`, so every `Run` lemma holds of it |
| Compliance.Blocked | lib/utilities/compliance.rb:44-46 | a blocked code is an upper-case alpha-2 code |
| Compliance.RiskPhysicalBlocked | lib/utilities/compliance.rb:62-64 | a risk-blocked code is an upper-case alpha-2 code |
| Compliance.BlockedListsShape | lib/utilities/compliance.rb:24-59 | 16 distinct OFAC codes, 10 distinct risk codes, Myanmar the only code on both |
| Compliance.DisplayNameSuffix | lib/utilities/compliance.rb:68 | the " (not supported)" suffix is added exactly to blocked countries |
| Compliance.CountryOptions | lib/utilities/compliance.rb:67-69 | one option per country, in table order |
| Compliance.ForSelect | lib/utilities/compliance.rb:66-71 | one option per country, sorted by label, a permutation of the countries' options |
| Compliance.ForSelectOptions | lib/utilities/compliance.rb:66-71 | every country has its option in the list and every option is some country's |
| Compliance.FirstNamed | lib/utilities/compliance.rb:15 | the country found is listed under the name; none is found iff no country is |
| Compliance.HistoricalNamesProperties | lib/utilities/compliance.rb:18-22 | [] for an unknown or blank name; otherwise starts with the common name, has no repeats, and holds exactly the common and historical names |
| Compliance.Flag | lib/utilities/compliance.rb:78 | each code point shifted by 127397; fails iff some shifted value passes U+10FFFF |
| Compliance.FlagOfAlpha2 | lib/utilities/compliance.rb:78 | an alpha-2 code becomes two Regional Indicator Symbols (U+1F1E6 to U+1F1FF) from which it reads back |
| Compliance.CountryWithFlagByName | lib/utilities/compliance.rb:75-84 | globe and "Elsewhere" when no country is found; otherwise the flag, a space and the given name |
| Compliance.CountryByCode | lib/utilities/compliance.rb:180 | the country found has that code; none is found iff no country has it |
| Compliance.FirstNameMatch | lib/utilities/compliance.rb:183 | the code of the first subdivision whose name or English name equals the string up to case; none iff no subdivision matches |
| Compliance.FindSubdivisionCode | lib/utilities/compliance.rb:178-184 | nil for nil or an unknown country; the string itself when it is a code; otherwise a matching subdivision's code, nil iff none matches |
| Compliance.FindSubdivisionCodeIgnoresCase | lib/utilities/compliance.rb:183 | two strings equal up to case resolve to the same code |
| Compliance.FirstNameMatchIgnoresCase | lib/utilities/compliance.rb:183 | the name search gives the same result for strings equal up to case |
| Compliance.KeptOptions | lib/utilities/compliance.rb:150-168 | exactly the kept subdivisions' options (US states and districts, Irish counties, all elsewhere; English labels in the UAE) |
| Compliance.KeptOptionsAppend | lib/utilities/compliance.rb:152-153 | the `filter_map` keeps the subdivisions' order: it distributes over concatenation |
| Compliance.KeptOptionsMapsAll | lib/utilities/compliance.rb:155-168 | outside the US and Ireland, one option per subdivision in the table's order |
| Compliance.KeptOptionsOfOne | lib/utilities/compliance.rb:152-153 | a single subdivision gives one option when its type is kept and none otherwise |
| Compliance.SubdivisionsForSelect | lib/utilities/compliance.rb:148-172 | raises iff the country is not US, CA, AU, AE, MX, IE or BR; otherwise a permutation of the kept options, sorted by label |
| Compliance.JapanPrefectureKana | lib/utilities/compliance.rb:137-139 | the table's reading of that name, and none for a name the table does not list |
| Compliance.JapanPrefecturesForSelect | lib/utilities/compliance.rb:141-146 | one option per Japanese subdivision, in order, valued and labelled by its Japanese name, with that name's reading from the table, none when it has none |
| Compliance.TaxableState | lib/utilities/compliance.rb:189-191 | a taxable code is an upper-case alpha-2 code |
| Compliance.TaxableStatesShape | lib/utilities/compliance.rb:187 | the list holds 36 distinct codes, in alphabetical order |
| Compliance.DigitalProductsTaxListsDistinct | lib/utilities/compliance.rb:246-276 | 21 distinct codes validate tax ids, 5 distinct codes do not |
| Compliance.DigitalProductsTaxListsDisjoint | lib/utilities/compliance.rb:246-276 | no country is on both lists |
| Compliance.DigitalProductsTaxList | lib/utilities/compliance.rb:246-278 | the digital-products list is the 21 validated codes followed by the 5 unvalidated ones, 26 distinct codes |
| Communities.Put | app/javascript/pages/Communities/Index.tsx:125 | `Map.set`: the key now maps to the value, every other key is unchanged, insertion order stays valid |
| Communities.PageFold | app/javascript/pages/Communities/Index.tsx:122-127 | the table after the server messages is valid and holds no deleted id |
| Communities.LocalFold | app/javascript/pages/Communities/Index.tsx:128-135 | the table after the live messages is valid and holds no deleted id |
| Communities.MergedTable | app/javascript/pages/Communities/Index.tsx:122-135 | the filled map is valid and holds no deleted id |
| Communities.Merge | app/javascript/pages/Communities/Index.tsx:136 | the map's values sorted by ascending creation time, as a permutation |
| Communities.AllMessages | app/javascript/pages/Communities/Index.tsx:121-137 | the two `forEach` loops and the sort compute `Merge` |
| Communities.LastWithId | app/javascript/pages/Communities/Index.tsx:125 | the last copy of an id in a list; none iff the id is absent |
| Communities.Winner | app/javascript/pages/Communities/Index.tsx:130-133 | absent iff both copies are absent; the live copy wins iff it was edited strictly later |
| Communities.PageFoldLookup | app/javascript/pages/Communities/Index.tsx:123-127 | after the server messages an id maps to its last server copy unless deleted |
| Communities.LocalFoldLookup | app/javascript/pages/Communities/Index.tsx:128-135 | after distinct-id live messages an id maps to the winner of its current and live copies unless deleted |
| Communities.PageFoldKeys | app/javascript/pages/Communities/Index.tsx:123-127 | the keys are the server ids minus the deleted ones |
| Communities.LocalFoldKeys | app/javascript/pages/Communities/Index.tsx:128-135 | the live ids not deleted are added to the keys |
| Communities.ValuesKeyedBy | app/javascript/pages/Communities/Index.tsx:136 | the values have distinct ids, exactly the keys, each stored under its own id |
| Communities.MergeExcludesDeleted | app/javascript/pages/Communities/Index.tsx:123-129 | no merged message has a deleted id |
| Communities.MergeIds | app/javascript/pages/Communities/Index.tsx:122-136 | merged ids are unique and are exactly the server and live ids not deleted |
| Communities.MergeKeepsNewer | app/javascript/pages/Communities/Index.tsx:130-133 | each merged message is the winner of the last server copy and the live copy of its id |
| Communities.MergeShowsWinner | app/javascript/pages/Communities/Index.tsx:121-137 | for a present, non-deleted id the winning copy is in the merged list |
| Communities.IndexOfId | app/javascript/pages/Communities/Index.tsx:284 | the first position holding the id; none iff no position does |
| Communities.FindIndexById | app/javascript/pages/Communities/Index.tsx:284 | the search loop returns the first position of the id, or -1 |
| Communities.Upserted | app/javascript/pages/Communities/Index.tsx:283-289 | the message is in the list; the length grows iff the id was absent; other entries keep their places; an append keeps the old list as prefix; a replacement lands at the first position holding the id |
| Communities.InsertOrUpdate | app/javascript/pages/Communities/Index.tsx:281-291 | the message's community gets the upserted list, every other community's list is unchanged |
| Communities.UpsertedKeepsIdsUnique | app/javascript/pages/Communities/Index.tsx:283-289 | upserting keeps ids unique, and the message is the copy held for its id |
| Communities.UniqueLast | app/javascript/pages/Communities/Index.tsx:284 | in a list with unique ids the copy of a member's id is that member |
| Communities.UpsertedMessageShows | app/javascript/pages/Communities/Index.tsx:281-291 | a newly inserted live message edited later than its server copy appears in the merged list |
| Communities.WithoutId | app/javascript/pages/Communities/Index.tsx:307 | exactly the entries without that id remain |
| Communities.WithoutIdKeepsOrder | app/javascript/pages/Communities/Index.tsx:307 | the filter distributes over concatenation, so remaining entries keep their order |
| Communities.WithoutIdUnchanged | app/javascript/pages/Communities/Index.tsx:307 | filtering an absent id changes nothing |
| Communities.WithoutIdKeepsIdsUnique | app/javascript/pages/Communities/Index.tsx:307 | filtering keeps ids unique |
| Communities.RemoveMessageKeepsIdsUnique | app/javascript/pages/Communities/Index.tsx:303-309 | after a removal every live list still has unique ids |
| Communities.RemoveMessage | app/javascript/pages/Communities/Index.tsx:303-309 | the id joins the deleted set; that community keeps exactly its other entries; other communities are unchanged |
| Communities.RemovedMessageHidden | app/javascript/pages/Communities/Index.tsx:303-309 | after a removal the id is not shown in any community's merged list |
| Communities.MarkAsRead | app/javascript/pages/Communities/Index.tsx:245-255 | a read is posted iff a community is selected, the message is strictly newer than the last read (missing = 0) and both ids are non-empty |
| Communities.MarkAsReadOnce | app/javascript/pages/Communities/Index.tsx:249-252 | once a read is recorded, a guard given the updated community marks no message created no later |
| Communities.MarkAsReadMonotone | app/javascript/pages/Communities/Index.tsx:249-252 | a later message than a marked one is marked too |
| Communities.TrimStart | app/javascript/pages/Communities/Index.tsx:317 | strips exactly the leading white space |
| Communities.TrimEnd | app/javascript/pages/Communities/Index.tsx:317 | strips exactly the trailing white space |
| Communities.Trim | app/javascript/pages/Communities/Index.tsx:317 | empty iff the content is all white space; otherwise both ends are non-space |
| Communities.SendMessage | app/javascript/pages/Communities/Index.tsx:313-319 | sends iff a community and a draft exist, the draft is not sending and its content is not blank; the draft becomes sending |
| Communities.SendMessageCycle | app/javascript/pages/Communities/Index.tsx:313-339 | no second send while sending; success clears the draft so it cannot be resent; an error restores the draft so it can |
| Communities.Sellers | app/javascript/pages/Communities/Index.tsx:442-451 | sorted by name, a permutation of the first-occurrence de-duplication by seller id |
| Communities.SellersProperties | app/javascript/pages/Communities/Index.tsx:443-450 | one entry per distinct seller id, each the first community's seller with that id |
| Communities.SellersExceptSelected | app/javascript/pages/Communities/Index.tsx:453-456 | every seller except the selected community's; all of them without a selection |
| Communities.SelectedSellerCommunities | app/javascript/pages/Communities/Index.tsx:458-461 | exactly the communities of the selected seller, none without a selection |
| Communities.SellersExceptSelectedAppend | app/javascript/pages/Communities/Index.tsx:453-456 | the filter keeps order and multiplicity: it distributes over concatenation |
| Communities.SellersExceptSelectedOne | app/javascript/pages/Communities/Index.tsx:453-456 | a single seller is kept iff it is not the selected community's seller |
| Communities.SellersExceptSelectedSorted | app/javascript/pages/Communities/Index.tsx:453-456 | a list sorted by name stays sorted by name after the filter |
| Communities.SelectedSellerCommunitiesAppend | app/javascript/pages/Communities/Index.tsx:458-461 | the filter keeps order and multiplicity: it distributes over concatenation |
| Communities.SelectedSellerCommunitiesOne | app/javascript/pages/Communities/Index.tsx:458-461 | a single community is kept iff it belongs to the selected seller |
| Communities.SellersExceptSelectedKeys | app/javascript/pages/Communities/Index.tsx:453-456 | leaving out the selected community's seller removes exactly that seller id |
| Communities.SellersExceptSelectedUnique | app/javascript/pages/Communities/Index.tsx:453-456 | leaving out a seller keeps seller ids unique |
| Communities.SwitcherListsOtherSellers | app/javascript/pages/Communities/Index.tsx:442-456 | the switcher lists each seller id other than the selected one exactly once, and no other |
| Communities.ScrollElementId | app/javascript/pages/Communities/Index.tsx:63-70 | the id starts with "message-" iff the target is a message, followed by its id |
| Communities.ScrollBlock | app/javascript/pages/Communities/Index.tsx:72 | a message's requested alignment, centred otherwise |
| Communities.ScrollElementIdInjective | app/javascript/pages/Communities/Index.tsx:63-70 | two targets share an element id iff they are the same anchor |
| AccountDetails.BusinessTypes | app/javascript/components/Settings/PaymentsPage/AccountDetailsSection.tsx:72-79 | a list exactly for a business in AE, IN or CA, that country's list |
| AccountDetails.BusinessStateConfig | app/javascript/components/Settings/PaymentsPage/AccountDetailsSection.tsx:81-102 | a config exactly for the seven state countries and JP; prefectures for JP, that country's states otherwise |
| AccountDetails.IndividualStateConfig | app/javascript/components/Settings/PaymentsPage/AccountDetailsSection.tsx:104-123 | a config exactly for the seven state countries, with that country's states |
| AccountDetails.StateConfigIdSuffixes | app/javascript/components/Settings/PaymentsPage/AccountDetailsSection.tsx:81-123 | business select ids start with "business-", individual ones with "creator-" |
| AccountDetails.StateConfigsAgree | app/javascript/components/Settings/PaymentsPage/AccountDetailsSection.tsx:81-123 | for one country both selects offer the same states under the same caption; JP is the only country with a business select and no individual one |
| AccountDetails.PrefectureSelectOnlyForJapan | app/javascript/components/Settings/PaymentsPage/AccountDetailsSection.tsx:300-301 | a business select reads as a prefecture select iff the country is JP and the prefecture list is non-empty; an individual select never does |
| AccountDetails.BusinessTaxIdConfig | app/javascript/components/Settings/PaymentsPage/AccountDetailsSection.tsx:125-140 | always defined with suffix "business-tax-id" and no bounds; "Company tax ID" and "12345678" outside US, CA, AU, GB, MX |
| AccountDetails.TableLookup | app/javascript/components/Settings/PaymentsPage/AccountDetailsSection.tsx:298 | the table's config for the code; none iff the code is not in the table |
| AccountDetails.IndividualTaxIdTableShape | app/javascript/components/Settings/PaymentsPage/AccountDetailsSection.tsx:161-296 | 20 entries, one per country of the list, in its order |
| AccountDetails.IndividualTaxIdCountriesDistinct | app/javascript/components/Settings/PaymentsPage/AccountDetailsSection.tsx:161-296 | the 20 countries are distinct and none of them is the US |
| AccountDetails.IndividualTaxIdTableWellBounded | app/javascript/components/Settings/PaymentsPage/AccountDetailsSection.tsx:161-296 | every field of the table has bounds 1 <= min <= max |
| AccountDetails.IndividualTaxIdConfig | app/javascript/components/Settings/PaymentsPage/AccountDetailsSection.tsx:142-298 | US: full SSN (9 to 11) or last four (4 to 4); null country: none; otherwise an entry of the table for that country, none iff absent; every config has 1 <= min <= max |
| AccountDetails.TableLookupFinds | app/javascript/components/Settings/PaymentsPage/AccountDetailsSection.tsx:298 | in a table with distinct codes, the lookup finds the entry with that code |
| AccountDetails.IndividualTaxIdCodesDistinct | app/javascript/components/Settings/PaymentsPage/AccountDetailsSection.tsx:161-296 | no two entries of the table share a code, and none is for the US or has an empty code |
| AccountDetails.IndividualTaxIdConfigOfCountry | app/javascript/components/Settings/PaymentsPage/AccountDetailsSection.tsx:142-298 | for a country of the table the config is exactly that country's entry |
| AccountDetails.ShowAccountTypeSection | app/javascript/components/Settings/PaymentsPage/AccountDetailsSection.tsx:369-371 | hidden iff the applicable country (business country for a business) is AE |
| AccountDetails.ShowNationalityField | app/javascript/components/Settings/PaymentsPage/AccountDetailsSection.tsx:373-377 | shown iff the user's country is AE, SG, PK or BD |
| AccountDetails.NeedsIndividualTaxIdForIndividuals | app/javascript/components/Settings/PaymentsPage/AccountDetailsSection.tsx:379-383 | for an individual the business country plays no part: the personal country alone decides |
| AccountDetails.NeedsIndividualTaxIdMonotone | app/javascript/components/Settings/PaymentsPage/AccountDetailsSection.tsx:379-383 | adding countries to the user's needed list never withdraws the need |
| AccountDetails.ShowIndividualTaxIdField | app/javascript/components/Settings/PaymentsPage/AccountDetailsSection.tsx:1176 | shown iff the id is needed and a config exists; the config shown is well bounded |
| AccountDetails.UsTaxIdFieldShown | app/javascript/components/Settings/PaymentsPage/AccountDetailsSection.tsx:143-159 | when a US id is needed the field shows with minimum length 9 or 4 |
| AccountDetails.CountFrom | app/javascript/components/Settings/PaymentsPage/AccountDetailsSection.tsx:1144 | `Array.from` of a length: that many consecutive values, none for a negative length |
| AccountDetails.CountFromRange | app/javascript/components/Settings/PaymentsPage/AccountDetailsSection.tsx:1144 | exactly the values of the half-open range, strictly increasing |
| AccountDetails.DobMonths | app/javascript/components/Settings/PaymentsPage/AccountDetailsSection.tsx:1105 | exactly the months 1 to 12 |
| AccountDetails.DobDays | app/javascript/components/Settings/PaymentsPage/AccountDetailsSection.tsx:1126 | exactly the days 1 to 31 |
| AccountDetails.DobYears | app/javascript/components/Settings/PaymentsPage/AccountDetailsSection.tsx:1144 | exactly the years 1900 to minDobYear - 1, and that many |
| ProductsPopover.CountSelected | app/javascript/components/Analytics/ProductsPopover.tsx:33 | at most the length; the length iff all are selected; zero iff none is |
| ProductsPopover.AllChecked | app/javascript/components/Analytics/ProductsPopover.tsx:33 | checked iff every product is selected, so checked for an empty list |
| ProductsPopover.SetAll | app/javascript/components/Analytics/ProductsPopover.tsx:35-37 | every flag becomes the checkbox value, nothing else changes |
| ProductsPopover.SetByPermalink | app/javascript/components/Analytics/ProductsPopover.tsx:47-54 | only products with that permalink change, and only their flag |
| ProductsPopover.ToggleAll | app/javascript/components/Analytics/ProductsPopover.tsx:64-66 | every flag flips, nothing else changes |
| ProductsPopover.SetAllChecks | app/javascript/components/Analytics/ProductsPopover.tsx:33-37 | after select-all the box is checked iff it was ticked or the list is empty |
| ProductsPopover.ToggleAllInvolution | app/javascript/components/Analytics/ProductsPopover.tsx:64-66 | toggling twice is the identity |
| ProductsPopover.ToggleAllCount | app/javascript/components/Analytics/ProductsPopover.tsx:64-66 | toggling selects exactly the previously unselected products |
| ProductsPopover.SetByPermalinkCompletes | app/javascript/components/Analytics/ProductsPopover.tsx:47-54 | ticking the last unticked permalink checks "All products" |
| ProductsPopover.SetByPermalinkUnchecks | app/javascript/components/Analytics/ProductsPopover.tsx:47-54 | unticking a present permalink unchecks "All products" |
| ChurnPolicy.Show | app/policies/churn_policy.rb:4-12 | false when the feature is off; otherwise true iff the user has at least one of the four roles |
| ChurnPolicy.ShowMonotone | app/policies/churn_policy.rb:6-11 | adding roles never revokes access |
| ChurnPolicy.EachRoleSuffices | spec/policies/churn_policy_spec.rb:28-46 | each role alone grants access; no role denies it |
| ChurnProductScope.SubscriptionProductsOf | app/services/creator_analytics/churn/product_scope.rb:10-14 | exactly the recurring-billing or tiered-membership products |
| ChurnProductScope.SubscriptionProductsOfAppend | app/services/creator_analytics/churn/product_scope.rb:13 | the filter distributes over concatenation, so source order is kept |
| ChurnProductScope.IdsOf | app/services/creator_analytics/churn/product_scope.rb:19 | exactly the ids of the products |
| ChurnProductScope.ProductMapOf | app/services/creator_analytics/churn/product_scope.rb:16-28 | each product's id maps to its info when it is the last product with that id |
| ChurnProductScope.ProductMapOfKeys | app/services/creator_analytics/churn/product_scope.rb:16-28 | the keys are exactly the products' ids |
| ChurnProductScope.ProductMapOfDistinct | app/services/creator_analytics/churn/product_scope.rb:16-28 | with distinct ids every product's id maps to its own id, external id, permalink and name |
| ChurnProductScope.FirstSaleDateOf | app/services/creator_analytics/churn/product_scope.rb:34-39 | nil iff there is no first sale; otherwise its local date |
| ChurnProductScope.EarliestAnalyticsDateOf | app/services/creator_analytics/churn/product_scope.rb:30-32 | the local date of the first sale, or of the account creation when there was none |
| ChurnProductScope.ProductScope.constructor | app/services/creator_analytics/churn/product_scope.rb:6-8 | nothing cached and nothing queried |
| ChurnProductScope.ProductScope.SubscriptionProducts | app/services/creator_analytics/churn/product_scope.rb:10-14 | returns the subscription products, caches them, and queries the products at most once per instance |
| ChurnProductScope.ProductScope.ProductMap | app/services/creator_analytics/churn/product_scope.rb:16-28 | returns the map of the subscription products and caches it; products are queried at most once |
| ChurnProductScope.ProductScope.FirstSaleDate | app/services/creator_analytics/churn/product_scope.rb:34-39 | returns the first sale date; the sale is queried again on every call while the cached value is nil |
| ChurnProductScope.ProductScope.EarliestAnalyticsDate | app/services/creator_analytics/churn/product_scope.rb:30-32 | returns the earliest date and caches it; once cached nothing is queried again |
| ChurnProductScope.RepeatedCallsAgree | spec/services/creator_analytics/churn/product_scope_spec.rb:160-167 | calling each accessor twice on one instance gives the same answers |

## Left out

- The Stripe client calls, the ActiveRecord queries, `find_each` batching and the Sidekiq retry
  options. The processor's answers and the local activity are inputs (`Env`).
- Reclamation: the processor is asked about an account through a single `ProcessorView`, so
  between two runs it gives the same answers. The transfer id is part of that answer.
- Reclamation: a balance answer with an empty `available` or `pending` list raises in the
  source. The exception escapes the loop, so the whole run stops and keeps what it already did
  (`Decision.Abort`, `JobResult.completed == false`).
- Reclamation: the only exception modelled is the empty balance list. A Stripe call that raises,
  or an `update!` that fails, also escapes `find_each` and ends the run; those failures are
  not inputs of the model. In particular a `Transfer.create` followed by a failing `update!`
  moves money without leaving a marker, which `RunTwiceTransfersOnce` does not cover.
- Reclamation.Step: its own contract states only that the row counts are kept. What an
  iteration does is stated by `Assess`, `StepTransfer` and the run lemmas.
- Reclamation.RunFrom: as for `Step`. Its behaviour is stated by `RunMovesExactly`,
  `TransfersAreMarked`, `TransfersFromDormantCandidates`, `RunConservesTotal` and
  `RunTwiceTransfersOnce`.
- RunOnlyMarksAndMoves: states only the frame (which kinds of change can happen); which
  balance rows move is stated by `RunMovesExactly`.
- RunConservesTotal: states the total of all rows. The merchant side is `RunEmptiesTransferredAccounts`;
  the platform account's gain is stated for one re-pointing (`RepointConserves`) and one step
  (`StepTransfer`), not summed over a run.
- Reclamation: the `LIKE '%stripe_connect%'` filter is modelled as exact, case-sensitive containment in a
  non-null JSON text (`Text.Contains`). SQL's `_` wildcard, a case-insensitive collation and a NULL
  `json_data` are not modelled.
- Reclamation: the processor and the local database are read at the single instant `now`. The
  source reads `Time.current` several times.
- Reclamation: transfers are identified by the account's position, not its id. So
  idempotency does not rely on account ids being unique.
- The ISO 3166 data, and the `const_set` constants built from it. The country table is an
  input.
- Compliance: `find_country_by_any_name` is modelled as an exact match against the names the
  table lists. The library's own name normalisation is not part of this model.
- Compliance: case folding is ASCII-only.
- Compliance: `blank?` (`IsBlank`) treats only ASCII white space as blank; Ruby also counts
  Unicode white space.
- JapanPrefectureKana: the table's contents are data. That it lists 47 prefectures, and which
  readings it gives, is not proved.
- Compliance: a subdivision is assumed to have an English name, so the missing-translation
  error of `downcase` on nil is not modelled.
- Compliance: the tax-regime lists other than the digital-products list are constants with no
  operation of their own.
- Compliance.TaxableStatesShape: the list in the source has 36 codes, DC included.
- Sorting: `sort_by`, `Array.prototype.sort` and `localeCompare` are modelled by one stable
  insertion sort. Names are compared by code point, not by locale collation. The sort's
  stability is used but not proved.
- Communities: ActionCable channels, debouncing, the MutationObserver, the scroll-offset
  override, router requests and all DOM work. `MarkAsRead` models the guard together with the
  debounced call's guard, and `AfterRead` models its success callback.
- Communities: `new Date` string parsing. Timestamps are integers.
- Communities: the reset of the deleted-id set when the selected community changes.
- MarkAsReadOnce: `markMessageAsRead` is memoised on the selected community's id, so until that
  id changes its guard reads the last-read time of the community object captured then, not
  the one the success callback writes. The lemma holds for a guard given the updated
  community; the memoisation itself is not modelled.
- Communities: the scroll-to-new-message decision, which depends on DOM measurements.
- Communities: `Object.values` orders integer-like keys first. The seller list is sorted by
  name afterwards, so `Sellers` states the result up to ties.
- Communities.LocalFoldLookup: requires the live messages of a community to have distinct
  ids. `insertOrUpdateMessage` keeps that invariant (`UpsertedKeepsIdsUnique`).
- AccountDetails: phone formatting (libphonenumber) and all JSX rendering.
- AccountDetails: the state and country option lists come from props and are inputs.
- AccountDetails: a JavaScript record lookup with a key such as "constructor" would find an
  object prototype member. The model's tables hold only their listed keys.
- ChurnProductScope: timezone conversion is the input function `localDate`. The seller's
  product query and first-sale query are read from the `Seller` value, and ghost counters
  record how often each is made.
- ChurnPolicy: `Feature.active?` and the `role_*_for?` predicates are boolean inputs.
