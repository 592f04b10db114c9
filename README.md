# Zoo sanctuary dashboard and back-end services — a Dafny model

This project models the core of the zoo sanctuary application.

On the front end it covers:
- the employee dashboard's state and handlers: the view history, the five in-memory collections, the deletion modal and the toast messages;
- the overview's statistics, alerts and recent arrivals;
- the animal form, the animal list and the four detail pages;
- the HTTP client's response handling and its URL building.

On the back end it covers:
- the animal service: create, update and delete under the caretaker, capacity and existence rules, plus the keeper e-mails and the list filter;
- the keeper service: the unique contact, and refusing to delete a keeper who still has animals;
- the global exception handler's mapping from exceptions to HTTP answers.

JavaScript values are modelled explicitly (`Values.Value`), so truthiness, `||`, `===` and `parseInt` behave as in the browser. Records are maps from property names to values, and a save's `{ ...item, ...data }` is `Store.Merge`.

The back end's repositories are one `Entities.Database` object with a map per table and identity counters. Its invariant `Valid` says:
- every row is stored under its own id;
- every reference an animal holds names an existing row;
- keeper contacts are unique.

Every service method keeps that invariant. Create, update and delete of animals also keep every habitat within its capacity.

The files and modules:
- `wrappers.dfy` (`Wrappers`): `Option`, `Result`.
- `text.dfy` (`Text`): digits, `String(n)`, `parseInt`, `includes`, ASCII lower-casing.
- `values.dfy` (`Values`): JavaScript values and records.
- `navigation.dfy` (`Navigation`): the view history and the side bar's active section.
- `store.dfy` (`Store`): the generic save and delete of a collection.
- `seed_data.dfy` (`Seed`): the dashboard's initial collections.
- `overview.dfy` (`Overview`): the overview's statistics, alerts and recent arrivals.
- `dashboard.dfy` (`Dashboard`): the dashboard's state and handlers.
- `animal_form.dfy` (`AnimalForm`): the animal form.
- `animal_management.dfy` (`AnimalManagement`): the animal list.
- `details_pages.dfy` (`DetailsPages`): the four detail pages.
- `api_client.dfy` (`ApiClient`): the HTTP client.
- `entities.dfy` (`Entities`): the back end's entities and database.
- `animal_service.dfy` (`AnimalService`): the animal service.
- `cuidador_service.dfy` (`CuidadorService`): the keeper service.
- `exception_handler.dfy` (`ExceptionHandler`): the global exception handler.

## Model

| member | source | states |
|---|---|---|
| Navigation.InitialWellFormed | components/DashboardPage.tsx:290 | The initial history is the dashboard alone, which is well formed: a section page at the root and drill-down pages above it. |
| Navigation.NavigateShape | components/DashboardPage.tsx:297-303 | Navigating to one of the six section pages replaces the history with that page alone. Any other page is pushed on top. |
| Navigation.BackShape | components/DashboardPage.tsx:305-309 | Going back pops exactly the top view when more than one view is stacked. It does nothing on the root. |
| Navigation.NavigateThenBack | components/DashboardPage.tsx:297-309 | Opening a drill-down page and going back restores the previous history exactly. |
| Navigation.NavigatePreserves | components/DashboardPage.tsx:297-303 | Navigation keeps the history well formed. |
| Navigation.BackPreserves | components/DashboardPage.tsx:305-309 | Going back keeps the history well formed. |
| Navigation.ActiveNavId | components/DashboardPage.tsx:479-487 | The active side-bar entry is always one of the six sections. A page whose name contains "animal" selects the animals section. Any other section is chosen only when the page name contains its fragment ("keeper", "vet", "habitat", "feeding"). The dashboard entry is chosen exactly when no fragment matches. |
| Navigation.ActiveNavOfDashboard | components/DashboardPage.tsx:479-487 | The dashboard page selects the dashboard entry. |
| Navigation.ActiveNavOfAnimalPages | components/DashboardPage.tsx:479-487 | The animal list, details and form pages select the animals section. |
| Navigation.ActiveNavOfKeeperPages | components/DashboardPage.tsx:479-487 | The keeper pages select the keepers section. |
| Navigation.ActiveNavOfVetPages | components/DashboardPage.tsx:479-487 | The vet pages select the vets section. |
| Navigation.HabitatPageNav | components/DashboardPage.tsx:479-487 | A page name that starts with "habitat" and contains none of the letters n, k, v selects the habitats section. |
| Navigation.KeeperPageNav | components/DashboardPage.tsx:479-487 | A page name that starts with "keeper" and contains no letter n selects the keepers section. |
| Navigation.VetPageNav | components/DashboardPage.tsx:479-487 | A page name that starts with "vet" and contains neither n nor k selects the vets section. |
| Navigation.FeedingPageNav | components/DashboardPage.tsx:479-487 | A page name that starts with "feeding" and contains none of m, k, v, h selects the feeding section. |
| Navigation.ActiveNavOfHabitatPages | components/DashboardPage.tsx:479-487 | The habitat pages select the habitats section. |
| Navigation.ActiveNavOfFeedingPages | components/DashboardPage.tsx:479-487 | The feeding section and the plan details page select the feeding section. |
| Navigation.ActiveNavOfFeedingForm | components/DashboardPage.tsx:479-487 | The plan form selects the feeding section, though every letter of "animal" occurs in its name. |
| Store.MaxId | components/DashboardPage.tsx:322 | The largest id is at least 0, bounds every id, and is either 0 or the id of some record. |
| Store.NextId | components/DashboardPage.tsx:322 | A new record's id is at least 1 and greater than every existing id. |
| Store.Merge | components/DashboardPage.tsx:320 | The merged record keeps its id and has the union of both property sets. The edit's properties win; every other property is kept. |
| Store.Update | components/DashboardPage.tsx:320 | An edit keeps the collection's length, merges the edit into every record with the id, and leaves every other record unchanged. |
| Store.Remove | components/DashboardPage.tsx:373 | A removal never lengthens the collection. |
| Store.InsertFresh | components/DashboardPage.tsx:322-323 | An insert appends one record with a fresh id and the given properties, and keeps ids unique. |
| Store.UpdateAbsent | components/DashboardPage.tsx:320 | Editing an id that no record has leaves the collection as it was. |
| Store.UpdateKeepsIds | components/DashboardPage.tsx:320 | An edit changes no record's id, so it keeps ids unique. |
| Store.SavePreservesUnique | components/DashboardPage.tsx:312-333 | A save keeps ids unique, whether it edits or inserts. |
| Store.RemoveMembers | components/DashboardPage.tsx:373 | A record survives a removal exactly when it was in the collection and its id differs from the removed id. |
| Store.RemoveAppend | components/DashboardPage.tsx:373 | Removal works record by record, so the survivors keep their order. |
| Store.RemoveLength | components/DashboardPage.tsx:373 | A removal drops exactly the records that carry the id. |
| Store.UniqueCount | components/DashboardPage.tsx:373 | With unique ids, an id occurs once if some record has it and not at all otherwise. |
| Store.RemoveUnique | components/DashboardPage.tsx:373 | With unique ids, removing an id that is present shortens the collection by one, and removing an absent id changes nothing. |
| Store.RemoveAbsent | components/DashboardPage.tsx:373 | Removing an id that no record has leaves the collection as it was. |
| Store.RemovePreservesUnique | components/DashboardPage.tsx:373 | A removal keeps ids unique. |
| Store.NumberedUnique | components/DashboardPage.tsx:50-85 | Collections numbered 1, 2, 3, … have unique ids, so the seed collections do too. |
| Values.Or | components/DashboardPage.tsx:336 | `a \|\| b` is `a` when `a` is truthy and `b` otherwise. |
| Values.FindById | frontend/components/AnimalDetailsPage.tsx:41 | `find` returns nothing exactly when no record has the id. Otherwise it returns the first record with that id. |
| Values.FindByRef | frontend/components/AnimalDetailsPage.tsx:56-59 | A reference that is not a number matches no record (strict equality). A number reference finds the first record with that id. |
| Values.Matching | frontend/components/HabitatDetailsPage.tsx:19 | The filtered list is no longer than the collection, and every record in it is from the collection and has the property value. |
| Values.MatchingAppend | frontend/components/HabitatDetailsPage.tsx:19 | Filtering a concatenation concatenates the filtered parts, so collection order is kept. |
| Values.MatchingComplete | frontend/components/HabitatDetailsPage.tsx:19 | A record is kept exactly when it is in the collection and its property equals the value. |
| Values.MatchingEmpty | components/DashboardPage.tsx:191-192 | The filter is empty exactly when no record has that property value. |
| Text.NatText | frontend/components/AnimalFormPage.tsx:74 | A natural number's rendering is non-empty and made of decimal digits. |
| Text.DigitPrefixLen | frontend/components/AnimalFormPage.tsx:74 | `parseInt` reads the longest run of leading digits, and that run stops at the first non-digit. |
| Text.NatTextValue | frontend/components/AnimalFormPage.tsx:74 | The digits of a natural number denote that number. |
| Text.DigitPrefixOfDigits | frontend/components/AnimalFormPage.tsx:74 | A string of digits is read whole. |
| Text.ParseIntText | frontend/components/AnimalFormPage.tsx:74 | Parsing a rendered integer gives the integer back. |
| Text.DigitPrefixStops | frontend/services/api.ts:12 | Digits followed by a non-digit are read up to the non-digit. |
| Text.ParseIntTextThen | frontend/services/api.ts:12 | A rendered integer followed by a non-digit still parses to that integer. |
| Text.ParseIntOfDigits | frontend/components/AnimalFormPage.tsx:74 | A run of digits followed by a non-digit (or nothing) parses to the number the digits denote. |
| Text.ParseIntNegated | frontend/components/AnimalFormPage.tsx:74 | A minus sign before digits parses to the negation of what the digits parse to. |
| Text.DigitsOnly | components/DashboardPage.tsx:138 | The date key's digits are digits and no longer than the date. |
| Text.ContainsConcat | components/DashboardPage.tsx:342-347 | A text built around a piece contains that piece. |
| Text.PrefixContained | components/DashboardPage.tsx:479-487 | A text contains each of its prefixes. |
| Text.AbsentCharNotContained | components/DashboardPage.tsx:479-487 | A text cannot contain a fragment that has a character the text lacks. |
| Text.AbsentPairNotContained | components/DashboardPage.tsx:479-487 | A text cannot contain a fragment two of whose adjacent characters are never adjacent in the text. |
| Text.Lower | backend/santuario/src/main/java/com/zoo/santuario/service/AnimalService.java:97-99 | Lower-casing keeps the length and maps each character. |
| Text.LowerIdempotent | backend/santuario/src/main/java/com/zoo/santuario/service/AnimalService.java:97-99 | Lower-casing twice equals lower-casing once. |
| Overview.Statistics | components/DashboardPage.tsx:135-145 | The animal count is the collection's size. The active-habitat card counts the habitats with status "Operacional", and the on-shift card counts the keepers with status "Ativo". The pending alerts are the habitats under maintenance plus the animals under observation. Each count is bounded by its collections. |
| Overview.StatisticsMeaning | components/DashboardPage.tsx:135-145 | The counted habitats and keepers are exactly those with the status counted. Each card is zero exactly when no record has that status. |
| Overview.DetailLinks | components/DashboardPage.tsx:177-186 | There is one drill-down target per alerted record, in order, each opening that record's details. |
| Overview.AlertsAgree | components/DashboardPage.tsx:135-192 | The pending-alerts card equals the number of alert entries. It is zero exactly when no habitat is under maintenance and no animal under observation, which is exactly when the placeholder shows. Every alert opens a drill-down page. |
| Overview.LinksAreDrillDowns | components/DashboardPage.tsx:135-192 | Every alert link goes to its details page, never to a top-level section. |
| Overview.InsertDesc | components/DashboardPage.tsx:138 | An insertion into the sorted list adds exactly one element. |
| Overview.InsertDescSorted | components/DashboardPage.tsx:138 | Inserting into a list sorted most recent first keeps it sorted. |
| Overview.SortedTail | components/DashboardPage.tsx:138 | Dropping the most recent record of a sorted list keeps it sorted. |
| Overview.ConsSorted | components/DashboardPage.tsx:138 | A record no less recent than every record of a sorted list can go in front of it, and the list stays sorted. |
| Overview.SortDesc | components/DashboardPage.tsx:138 | The sort gives a permutation of the animals. |
| Overview.SortDescSorted | components/DashboardPage.tsx:138 | The sort's result is ordered most recent first. |
| Overview.TakeSorted | components/DashboardPage.tsx:138 | The first n records of a list sorted most recent first are still sorted, and are drawn from the list. |
| Overview.TakeKeepsLatest | components/DashboardPage.tsx:138 | Every record past the first n of a sorted list arrived no later than every record kept. |
| Overview.RecentAnimalsSpec | components/DashboardPage.tsx:138 | The recent table holds min(5, n) of the animals, most recent first. Every animal left out arrived no later than every one shown. |
| Dashboard.FriendlyName | components/DashboardPage.tsx:337 | The title is the kind's entry in the name map, or "Item" exactly when the kind has none. |
| Dashboard.SaveToastSpec | components/DashboardPage.tsx:335-348 | The save toast announces an e-mail exactly when an animal is saved whose keeper (found among the keepers as they were before the save) has a contact, and then it opens with that contact. Otherwise it opens with the kind's title, the quoted item name and "foi", and it contains " com sucesso.". It always names the item and says whether it was added or updated. |
| Dashboard.NamesBoth | components/DashboardPage.tsx:342-347 | A message built from pieces contains both the name and the action. |
| Dashboard.DeleteName | components/DashboardPage.tsx:355 | The modal's name is never empty: the name if truthy, else the plan name, else "este item". |
| Dashboard.DeleteToastSpec | components/DashboardPage.tsx:384-385 | The deletion toast starts with the kind's title, names the item and reports the deletion, and never reads as an e-mail notice. |
| Dashboard.DashboardPage.constructor | components/DashboardPage.tsx:290-292 | The dashboard starts on the dashboard view with the seed collections, no modal and no toast, and satisfies its invariant. |
| Dashboard.DashboardPage.NavigateTo | components/DashboardPage.tsx:297-303 | The history becomes `Navigate` of the old history, and nothing else changes. |
| Dashboard.DashboardPage.NavigateBack | components/DashboardPage.tsx:305-309 | The history becomes `Back` of the old history, and nothing else changes. |
| Dashboard.DashboardPage.SaveData | components/DashboardPage.tsx:312-351 | Saves into the one collection the kind names; an unknown kind saves nothing. It shows the save toast computed from the keepers before the save, goes back once, and keeps ids unique. |
| Dashboard.DashboardPage.HandleDeleteRequest | components/DashboardPage.tsx:354-357 | The modal holds the item's id, kind and display name. Nothing else changes, and the page invariant is kept. |
| Dashboard.DashboardPage.HandleModalClose | components/DashboardPage.tsx:359-361 | The modal is closed. Nothing else changes, and the page invariant is kept. |
| Dashboard.DashboardPage.HandleConfirmDelete | components/DashboardPage.tsx:363-388 | With no pending item, nothing changes. Otherwise it leaves the deleted record's detail page if that page is shown, removes the id from the collection the kind names, shows the deletion toast and closes the modal. Ids stay unique. |
| AnimalForm.HabitatOccupancy | frontend/components/AnimalFormPage.tsx:52-60 | The occupancy map holds, under each key, exactly the number of animals whose truthy `habitatId` reads as that key. Keys that are absent have no animals. |
| AnimalForm.OptionDisabledSpec | frontend/components/AnimalFormPage.tsx:132-134 | A habitat option is disabled exactly when the animals counted under its id reach its capacity and it is not the selected habitat. |
| AnimalForm.SelectedNeverDisabled | frontend/components/AnimalFormPage.tsx:134 | The selected habitat's option is never disabled. |
| AnimalForm.ResidentCountMatches | frontend/components/AnimalFormPage.tsx:52-60 | When every `habitatId` is a number or falsy, counting by object key equals counting by strict equality. |
| AnimalForm.KeyMatches | frontend/components/AnimalFormPage.tsx:52-60 | For a number or falsy `habitatId`, being counted under a non-zero id's key is the same as being that id. |
| AnimalForm.InputValueSpec | frontend/components/AnimalFormPage.tsx:71-78 | A rendered number typed into a numeric input is stored as that number. Other inputs, and empty text, keep the text. |
| AnimalForm.Loaded | frontend/components/AnimalFormPage.tsx:62-69 | When editing an animal that exists, the form holds that animal's id and properties. Otherwise the form is left as it was. |
| AnimalForm.AnimalFormPage.constructor | frontend/components/AnimalFormPage.tsx:35-69 | The form starts from the defaults, then runs the loading effect, with no errors. |
| AnimalForm.AnimalFormPage.LoadForEdit | frontend/components/AnimalFormPage.tsx:62-69 | The loading effect sets the form to `Loaded` of the old form and leaves the errors alone. |
| AnimalForm.AnimalFormPage.HandleChange | frontend/components/AnimalFormPage.tsx:71-78 | Sets only the changed input, parsing numeric inputs, and clears that input's error. |
| AnimalForm.AnimalFormPage.HandleSubmit | frontend/components/AnimalFormPage.tsx:80-83 | Hands the form's data to the save unchanged. |
| AnimalManagement.NormaliseSpec | frontend/components/AnimalManagementPage.tsx:25-32 | An empty name, and an empty or placeholder species, are dropped. Everything else passes on as typed, and the age bounds pass through. |
| AnimalManagement.AgeInput | frontend/components/AnimalManagementPage.tsx:75-82 | Empty text gives `undefined`. Any other text gives a number or NaN. |
| AnimalManagement.NameLookupSpec | frontend/components/AnimalManagementPage.tsx:34-35 | With unique ids, the name shown for a reference is the named record's name, or 'N/A' when that name is empty. A dangling reference shows 'N/A'. |
| AnimalManagement.Rows | frontend/components/AnimalManagementPage.tsx:110-136 | One row per animal in order, with its keeper and habitat names, details and edit targets for its id, and the animal itself as its delete button's item. |
| AnimalManagement.TargetsPush | frontend/components/AnimalManagementPage.tsx:110-136 | The add, details and edit buttons all push onto the history. |
| AnimalManagement.AnimalManagementPage.constructor | frontend/components/AnimalManagementPage.tsx:20-23 | The filters start empty and undefined. |
| AnimalManagement.AnimalManagementPage.SetFilterName | frontend/components/AnimalManagementPage.tsx:58 | Sets only the name filter. |
| AnimalManagement.AnimalManagementPage.SetFilterSpecies | frontend/components/AnimalManagementPage.tsx:63 | Sets only the species filter. |
| AnimalManagement.AnimalManagementPage.SetFilterAgeMin | frontend/components/AnimalManagementPage.tsx:75 | Sets only the minimum age, to the parsed input. |
| AnimalManagement.AnimalManagementPage.SetFilterAgeMax | frontend/components/AnimalManagementPage.tsx:82 | Sets only the maximum age, to the parsed input. |
| AnimalManagement.AnimalManagementPage.HandleFilter | frontend/components/AnimalManagementPage.tsx:25-32 | The filter handed on is the normalisation of the current inputs. |
| DetailsPages.IdParam | components/DashboardPage.tsx:405 | A present id parameter is that number. A missing one is never a number, so it matches no record. |
| DetailsPages.AnimalDetailsSpec | frontend/components/AnimalDetailsPage.tsx:41-150 | The page shows "not found" exactly when no animal has the id. Otherwise it shows that animal with the default image substituted, and each related record is looked up on its own: a missing one reads 'N/A' and has no link, an existing one links to its details. Edit opens the form for the same id, and delete targets this animal. |
| DetailsPages.RelatedDetailsSpec | frontend/components/HabitatDetailsPage.tsx:18-82 | The page shows "not found" exactly when no record has the id. Otherwise it lists `Matching` of the animals on the reference: exactly the animals referring to the record, each once and in collection order, each linking to its details, and shows the empty message exactly when there are none. |
| DetailsPages.MembersExact | frontend/components/HabitatDetailsPage.tsx:18-82 | The listed animals are exactly those whose reference equals the id. The list is empty exactly when no animal holds it. |
| DetailsPages.HabitatDetailsSpec | frontend/components/HabitatDetailsPage.tsx:18-82 | The habitat page lists exactly its resident animals, in collection order, and its breadcrumb leads to the habitats section. |
| DetailsPages.FeedingPlanDetailsSpec | frontend/components/FeedingPlanDetailsPage.tsx:18-78 | The plan page lists exactly the animals on the plan, in collection order, and its breadcrumb leads to the feeding section. |
| DetailsPages.VetDetailsSpec | components/VetDetailsPage.tsx:18-82 | The vet page lists exactly the vet's animals, in collection order, and its breadcrumb leads to the vets section. |
| ApiClient.MemberOr | frontend/services/api.ts:21-25 | `body.key \|\| fallback`: the member if present and truthy, else the fallback. |
| ApiClient.Response.constructor | frontend/services/api.ts:6 | A fresh response has an unread body. |
| ApiClient.Response.ReadJson | frontend/services/api.ts:17-42 | Reading a used body fails with a TypeError. Otherwise the body becomes used and reading gives the parsed JSON, or a SyntaxError when the body is not JSON. |
| ApiClient.Response.ReadText | frontend/services/api.ts:31 | Reading a used body fails with a TypeError. Otherwise the body becomes used and reading gives its text. |
| ApiClient.ExpectedSpec | frontend/services/api.ts:6-43 | Every failed response raises an ApiError carrying its record's message. The record's fields come from the default record, an object body with a truthy message, a string body, or non-empty text, as the handler prescribes. A 204 gives null, and any other success gives the body. |
| ApiClient.DefaultMessageNamesStatus | frontend/services/api.ts:12 | The default message starts with the fixed prefix, and `parseInt` of the rest reads back the status. |
| ApiClient.HandleResponseAsWritten | frontend/services/api.ts:6-43 | As written: a failed response whose body is not JSON gives a TypeError, not an ApiError. Every other response gives the intended outcome. |
| ApiClient.HandleResponse | frontend/services/api.ts:6-43 | Reading the body once always gives the intended outcome, `Expected`. |
| ApiClient.BadGatewayDiffers | frontend/services/api.ts:30-35 | A 502 with an HTML page gives a TypeError as written, and an ApiError whose message is the page when corrected. |
| ApiClient.Delete | frontend/services/api.ts:89-93 | A delete completes without looking at the response. For a failed response it completes where `handleResponse` would raise an ApiError. |
| ApiClient.DeleteIgnoresFailure | frontend/services/api.ts:89-93 | A failed delete goes unnoticed, although `handleResponse` would raise an ApiError for the same response. |
| ApiClient.Query | frontend/services/api.ts:61 | The query is empty exactly when there are no parameters. Otherwise it starts with "?". |
| ApiClient.Joined | frontend/services/api.ts:61 | A non-empty parameter list renders as non-empty text. |
| ApiClient.AnimalParamsPresence | frontend/services/api.ts:47-60 | Each animal filter is sent exactly when it is truthy, with its value as typed. |
| ApiClient.AnimalParamsOrder | frontend/services/api.ts:47-60 | The keys appear in the order species, ageMin, ageMax, name, each at most once. |
| ApiClient.AnimalParamsEmpty | frontend/services/api.ts:47-61 | The URL has no query exactly when no filter is truthy. |
| ApiClient.AnimalsUrl | frontend/services/api.ts:46-64 | The request URL is the base, "/animals", and the query of the truthy filters in order. |
| ApiClient.FeedingParamsPresence | frontend/services/api.ts:219-231 | Each feeding filter is sent exactly when it is truthy, with its value as typed, and `foodType` comes before `animalId`. |
| ApiClient.AlimentacoesUrl | frontend/services/api.ts:219-231 | The request URL is the base, "/alimentacoes", and the query of the truthy feeding filters. |
| ApiClient.SingleFilterUrl | frontend/services/api.ts:96-105 | A truthy filter adds one parameter. Otherwise the URL is the bare path. |
| Entities.Database.constructor | backend/santuario/src/main/java/com/zoo/santuario/model/Animal.java:14-15 | An empty database satisfies the invariant, and its identity counters start at 1. |
| Entities.ResidentsGain | backend/santuario/src/main/java/com/zoo/santuario/service/AnimalService.java:284 | Storing an animal in a habitat it was not in adds exactly that one resident. |
| Entities.ResidentsNoGain | backend/santuario/src/main/java/com/zoo/santuario/service/AnimalService.java:284 | Storing an animal outside a habitat never adds a resident there. |
| Entities.ResidentsStay | backend/santuario/src/main/java/com/zoo/santuario/service/AnimalService.java:284 | An animal that stays in its habitat leaves the residents unchanged. |
| Entities.ResidentsRemove | backend/santuario/src/main/java/com/zoo/santuario/service/AnimalService.java:218-229 | Deleting an animal removes only that resident. |
| AnimalService.ResponseRoundTrip | backend/santuario/src/main/java/com/zoo/santuario/service/AnimalService.java:293-308 | The response to a save carries the stored id and gives back exactly the request's fields and relations. |
| AnimalService.CapacityCheck | backend/santuario/src/main/java/com/zoo/santuario/service/AnimalService.java:278-291 | The check passes exactly when there is no target habitat, the habitat is unchanged, or the habitat exists and has room. A missing habitat fails as not found, and a full one with the capacity exception. |
| AnimalService.AdmitKeepsCapacity | backend/santuario/src/main/java/com/zoo/santuario/service/AnimalService.java:278-291 | Storing an animal after the check passed keeps every habitat within its capacity. |
| AnimalService.RemoveKeepsCapacity | backend/santuario/src/main/java/com/zoo/santuario/service/AnimalService.java:216-230 | Deleting an animal keeps every habitat within its capacity. |
| AnimalService.Find | backend/santuario/src/main/java/com/zoo/santuario/service/AnimalService.java:131-138 | A null id is refused. An unknown id gives not-found with the entity and id in the message. A known id gives its row. |
| AnimalService.Resolve | backend/santuario/src/main/java/com/zoo/santuario/service/AnimalService.java:131-138 | Succeeds exactly when all four references are given and exist, returning those rows. The keeper is checked first, then the habitat. Every failure is not-found or a null id. |
| AnimalService.CreateDecisionSpec | backend/santuario/src/main/java/com/zoo/santuario/service/AnimalService.java:121-138 | A missing keeper fails with the caretaker exception whatever else the request holds. A full target habitat fails with the capacity exception. A create succeeds exactly when every reference resolves and the habitat has room. |
| AnimalService.UpdateDecisionSpec | backend/santuario/src/main/java/com/zoo/santuario/service/AnimalService.java:164-213 | An unknown animal fails as not found before anything else, then a missing keeper. An update succeeds exactly when every reference resolves, the animal has a habitat, and it stays put or the new habitat has room. |
| AnimalService.KeeperNotice | backend/santuario/src/main/java/com/zoo/santuario/service/AnimalService.java:261-265 | A null keeper gets no mail, and a keeper gets exactly one. |
| AnimalService.UpdateNotices | backend/santuario/src/main/java/com/zoo/santuario/service/AnimalService.java:233-258 | A new keeper hears of a reassignment and the old one of the unassignment. The same keeper hears of updated details. With no new keeper, only the old one hears. |
| AnimalService.UpdateNoticesReach | backend/santuario/src/main/java/com/zoo/santuario/service/AnimalService.java:233-258 | At most two keepers hear, each once, and only the new and old keepers. The new keeper hears first. |
| AnimalService.EscapeLength | backend/santuario/src/main/java/com/zoo/santuario/service/AnimalService.java:269-273 | Escaping lengthens a text by its number of `%` characters. |
| AnimalService.EscapeIdentity | backend/santuario/src/main/java/com/zoo/santuario/service/AnimalService.java:269-273 | Escaping leaves a text unchanged exactly when it has no `%`. |
| AnimalService.OccurrencesIn | backend/santuario/src/main/java/com/zoo/santuario/service/AnimalService.java:269-273 | A character occurs zero times exactly when it is absent. |
| AnimalService.BodyAsWrittenDiffers | backend/santuario/src/main/java/com/zoo/santuario/service/AnimalService.java:269-273 | The mail body as written is longer than the intended body by one character per `%` in the names. The two agree exactly when no name has a `%`. |
| AnimalService.EscapeAppend | backend/santuario/src/main/java/com/zoo/santuario/service/AnimalService.java:269-273 | Escaping works character by character: escaping a concatenation concatenates the escaped parts. |
| AnimalService.TrailingPercentDoubled | backend/santuario/src/main/java/com/zoo/santuario/service/AnimalService.java:269-273 | A name whose only `%` is its last character is escaped with that `%` doubled. |
| AnimalService.PercentEscaped | backend/santuario/src/main/java/com/zoo/santuario/service/AnimalService.java:269-273 | "Tigre 100%" is escaped to "Tigre 100%%". |
| AnimalService.PercentDoubledExample | backend/santuario/src/main/java/com/zoo/santuario/service/AnimalService.java:269-273 | The mail about an animal named "Tigre 100%" as written differs from the intended mail. |
| AnimalService.BodyNames | backend/santuario/src/main/java/com/zoo/santuario/service/AnimalService.java:261-276 | The intended body greets the keeper by name and contains the animal's name and species as stored. |
| AnimalService.Notify | backend/santuario/src/main/java/com/zoo/santuario/service/AnimalService.java:261-276 | One mail per notice, in order, to the keeper's contact, with the kind's subject and the corrected body of the first Findings row (see "## Left out"). |
| AnimalService.CreateAnimal | backend/santuario/src/main/java/com/zoo/santuario/service/AnimalService.java:121-161 | Fails exactly as the create decision does, with no change and no mail. Otherwise it stores the request under the next id, mails the keeper of the assignment, returns the stored animal's response, and keeps the invariant and capacity. |
| AnimalService.UpdateAnimal | backend/santuario/src/main/java/com/zoo/santuario/service/AnimalService.java:164-214 | Fails exactly as the update decision does, with no change. Otherwise it overwrites the animal from the request, mails as `UpdateNotices` decides, and keeps the invariant and capacity. |
| AnimalService.DeleteAnimal | backend/santuario/src/main/java/com/zoo/santuario/service/AnimalService.java:216-230 | An unknown id fails as not found, with no change. Otherwise it removes the animal, mails its former keeper if any, and keeps the invariant and capacity. |
| AnimalService.Criteria | backend/santuario/src/main/java/com/zoo/santuario/service/AnimalService.java:82-108 | The predicate list holds of an animal exactly when the animal matches the filter. There are at most four predicates. |
| AnimalService.AddCriterion | backend/santuario/src/main/java/com/zoo/santuario/service/AnimalService.java:87-100 | Adding a predicate requires what the list did before, and the predicate. |
| AnimalService.FilteredAnimals | backend/santuario/src/main/java/com/zoo/santuario/service/AnimalService.java:82-108 | The result holds exactly the responses of the animals that match. |
| AnimalService.MatchesSpec | backend/santuario/src/main/java/com/zoo/santuario/service/AnimalService.java:87-100 | With no criteria every animal passes. Both age bounds are inclusive. The name match ignores case. An empty text is no criterion. Dropping a criterion never excludes an animal. |
| CuidadorService.StoreKeepsContactsUnique | backend/santuario/src/main/java/com/zoo/santuario/service/CuidadorService.java:44-70 | Storing a keeper whose contact is free, or unchanged, keeps contacts unique. |
| CuidadorService.ContactTakenSpec | backend/santuario/src/main/java/com/zoo/santuario/service/CuidadorService.java:45 | A contact is taken exactly when some keeper has it. |
| CuidadorService.CreateCuidador | backend/santuario/src/main/java/com/zoo/santuario/service/CuidadorService.java:44-51 | A taken contact fails with the duplicate message and no change. Otherwise it stores the keeper under the next id, returns its response, and keeps the invariant. |
| CuidadorService.UpdateCuidador | backend/santuario/src/main/java/com/zoo/santuario/service/CuidadorService.java:53-70 | An unknown id gives no result. A changed contact that is taken fails with no change. Otherwise it overwrites the keeper, returns its response, and keeps the invariant. |
| CuidadorService.DeleteCuidador | backend/santuario/src/main/java/com/zoo/santuario/service/CuidadorService.java:72-86 | An unknown id fails as not found. A keeper with animals fails with the count in the message. Otherwise it removes the keeper, and no animal is left referring to it. |
| CuidadorService.NoAnimalsNoReferences | backend/santuario/src/main/java/com/zoo/santuario/service/CuidadorService.java:76-83 | A keeper with no animals is referred to by no animal. |
| CuidadorService.FilteredCuidadores | backend/santuario/src/main/java/com/zoo/santuario/service/CuidadorService.java:27-37 | A null specialty gives every keeper. A given specialty gives exactly the keepers who have it. |
| ExceptionHandler.Handle | backend/santuario/src/main/java/com/zoo/santuario/config/GlobalExceptionHandler.java:18-78 | Status 400 exactly for illegal-argument, caretaker and capacity exceptions. 404 exactly for not-found. 500 for everything else. The body carries the status, its reason phrase, the message, the time and "uri=" plus the path. |
| ExceptionHandler.ClientSeesServerError | backend/santuario/src/main/java/com/zoo/santuario/config/GlobalExceptionHandler.java:18-78 | The front end raises an ApiError for every handled exception. With a non-empty message, its record is the server's field by field. With an empty message, it falls back to its own default record. |

## Left out

- Rendering, styling, icons, timers and animations of every page. The occupancy bar's floating-point percentage is also left out; the resident counts it divides are modelled by `Values.Matching`.
- `new Date(...)` parsing: the recent-arrivals sort orders by the number formed by the digits of a `YYYY-MM-DD` date (`Overview.DateKey`), which orders such dates as `Date` does. `Overview.SortDesc` is a stable insertion sort, as `Array.prototype.sort` has been required to be since ES2019. A record whose `arrivalDate` is not a string gets key 0 here, and so does a string with no digits. The latter includes the animal form's default empty date, since that input is not required and an animal can be saved without a date. Any other string that is not a `YYYY-MM-DD` date gets the number its digits form. In the browser `new Date(undefined)` and `new Date("")` are NaN, so the comparator returns NaN and the order depends on the engine; the model does not capture that.
- `typeToNameMap[type]` for a kind that names an `Object.prototype` property (for example "constructor") would not give 'Item'. Kinds are modelled as plain keys.
- `parseInt` is modelled for an optional sign followed by decimal digits; leading whitespace, hexadecimal prefixes and radix handling are not. `Values.ToNumber` reads a numeric string's digits but not signs, spaces or decimals.
- `Text.Lower` lower-cases ASCII letters only, standing for Java's `toLowerCase` and SQL `LOWER`. The name filter's `LIKE` wildcards `%` and `_` in the search text are taken literally.
- URL percent-encoding by `URLSearchParams` is not modelled: parameters are written as given.
- JSON parsing is not modelled: a response's content is given as its text together with what it parses to, if anything.
- The clock: the timestamp of the client's default error record and of the server's error body is a parameter.
- Network I/O: a response is given as its status, URL and content. The API functions that only fetch and call `handleResponse` are covered by `ApiClient.HandleResponse` and the URL builders. `getCuidadores`, `getHabitats` and `getVeterinarios` share `ApiClient.SingleFilterUrl`.
- Logging, the controllers, CORS configuration and the e-mail transport. Mails are returned as a sequence of `Entities.Email`; the mail service catches its own failures, so sending never affects a service call.
- Persistence-context details: relations are held by id. Two keeper rows are the same keeper when their ids are equal (`AnimalService.SameKeeper`), standing for entity equality within one persistence context.
- `countByHabitat_Id` is modelled as the number of animals whose habitat has the id (`Entities.Residents`).
- The keeper's `workShift` is modelled as carried by the request. The shipped `CuidadorRequestDTO` declares no `workShift`, so `getWorkShift()` in CuidadorService.java does not exist and the service as shipped does not compile. The model assumes the request carries the field.
- `findByContact` and `findBySpecialty` are modelled as the queries their names describe.
- `AnimalService.FilteredAnimals` and `CuidadorService.FilteredCuidadores` return sets. The services return lists in the repository's order, which the queries leave unspecified, so the model states the contents but not the order.
- ResourceNotFoundException.java is not part of this model. It is modelled as a not-found exception that carries its message.
- An exception whose `getMessage()` is null is modelled with the empty message. Null is serialised as JSON `null`, which is falsy just as `""` is, so the client falls back to its default record in both cases (`ExceptionHandler.ClientSeesServerError`).
- A null id handed to `findById` is modelled as an exception without a handler of its own (answered with 500), under the name `InvalidDataAccessApiUsageException`.
- The keeper, vet, habitat and feeding-plan form pages, the management pages other than the animal list, the keeper details page, and the public marketing pages.
- The dashboard does not pass an `onFilter` handler to the animal list, so `HandleFilter`'s result goes nowhere in the running page. The form's error setters are never called in the source, so the errors are only ever cleared.
- `AnimalService.UpdateNotices`: the source's branch for a new keeper `null` with an old keeper present cannot be reached through `UpdateAnimal`, because the caretaker check comes first. It is modelled nonetheless.
- AnimalService.Notify: the mails are built with the corrected body `AnimalService.Body`, in which names appear as stored. The source doubles each `%` in a name (the first Findings row). So `CreateAnimal`, `UpdateAnimal` and `DeleteAnimal` send that corrected body. The as-written body is `AnimalService.BodyAsWritten`, and `AnimalService.BodyAsWrittenDiffers` states exactly how it differs: one extra character per `%`, and the two agree when there is none.

## Findings

| source | as written | input that shows it | evidently intended | confidence | as-written member | corrected member |
|---|---|---|---|---|---|---|
| backend/santuario/src/main/java/com/zoo/santuario/service/AnimalService.java:269-273 | The keeper's name, the animal's name and the species are passed through `replace("%", "%%")` as `String.format` arguments. Arguments are not format strings, so each `%` in them is printed twice. | An animal named "Tigre 100%" is mailed as "Tigre 100%%". | The names appear in the mail exactly as stored. | high; not executed | AnimalService.PercentDoubledExample | AnimalService.BodyNames |
| frontend/services/api.ts:30-34 | When a failed response's body is not JSON, `response.json()` has already consumed the body. The fallback `response.text()` then rejects with a TypeError, so the caller gets a TypeError and not the intended ApiError. This holds for every non-JSON body, including an empty one. | A 502 whose body is the HTML page "<html>Bad Gateway</html>". | An ApiError whose message is the body's text, or the default message when the text is empty. | high; not executed | ApiClient.BadGatewayDiffers | ApiClient.HandleResponse |
