# Pet adoption API: the entity tables and their services

This project is a Dafny model of the data layer of the PetAdoptionAPI backend, an ASP.NET Core web service for
animal adoption backed by Entity Framework over PostgreSQL. The model covers:

- the entities the service stores: users, animals, animal images, foster homes, shelters, adoption requests, reports,
  and the lookup tables of animal sizes and animal types;
- the constraints that each entity's data annotations place on it (`[Required]`, `[MaxLength]`, `[StringLength]`,
  `[Range]`, `[RegularExpression]`);
- the services that list, look up, create, partially update and delete those entities.

**Tables.** Each table is a sequence of rows in *table order*: the order the model fixes for the rows, in which a create
appends at the end, an update keeps the row's place and a delete closes the gap. The keyed-table module `Table` gives lookup by primary key
(the model of `FindAsync`), filtering (`Where`), projection (`Select`) and the three table edits: append a fresh row,
replace a row keeping its key, and remove a row.

**Services.** Each service whose table changes is a class that owns its rows. Its methods mirror the service's async
methods. Each method is specified by pure functions:

- a `New…` function builds the row a create inserts, with the defaults the code sets;
- a `Merge…` function applies an update DTO the way the code's `if (dto.X != null) row.X = dto.X` lines do;
- a `ToReadDto`/`MapToReadDto` function projects a row to the DTO the caller receives.

**Lemmas.** Lemmas about these functions state what the services promise:

- a projection is lossless;
- an empty patch changes nothing but the update timestamp;
- applying a patch twice is the same as applying it once;
- an update keeps a valid entity valid when the patch's own values are valid, and for most entities only then;
- the fields that an update never touches (keys, creation dates, custodians, counters) are kept;
- in the model's table order, the per-user and per-animal listings are the full listing filtered, and a create adds
  exactly the created row at their end (the database itself promises no order; see "## Left out").

The e-mail pattern on `User.UserEmail` is modelled twice: as the regular expression's meaning (some split into local part,
domain and top-level domain) and as a direct test. A proof by cases shows that the two agree.

**Parameters.** The clock is a `now` parameter. Store-generated keys are a fresh-key parameter that the table must not
already hold.

Where the code's own comments or declarations promise more than the code does, the model follows the code:

- The comment at `backend/PetAdoptionAPI/Models/AdoptionRequest.cs:21` names the request statuses pending, approved
  and rejected. The annotations at lines 22-24 only ask for a non-blank status of at most 20 characters, so the model
  accepts any such status.
- A search of foster homes by name is declared in `backend/PetAdoptionAPI/Interfaces/IFosterHomeService.cs:12`, but
  `FosterHomeService` does not implement it.
- User and animal-image updates set no timestamp, because those rows have no update date.

## Model

| member | source | states |
|---|---|---|
| Common.Patch | backend/PetAdoptionAPI/Services/ReportService.cs:159-177 | a supplied patch value overwrites the current one and an absent one keeps it |
| Common.PatchNullable | backend/PetAdoptionAPI/Services/ReportService.cs:162-170 | a nullable column patched by a nullable value is null only when both are null; a supplied value wins |
| Common.PatchThen | backend/PetAdoptionAPI/Services/ReportService.cs:159-177 | two patches in a row equal one patch with the later supplied value, or the earlier one when the later is absent |
| Table.IndexOf | backend/PetAdoptionAPI/Services/ReportService.cs:60 | lookup by primary key finds nothing exactly when no row has the key; otherwise it gives the first row with that key |
| Table.Find | backend/PetAdoptionAPI/Services/ReportService.cs:60-61 | `FindAsync` yields null exactly for an absent key, and otherwise a stored row with that key |
| Table.IndexOfUnique | backend/PetAdoptionAPI/Services/ReportService.cs:60 | with unique keys, looking up the key of the row at a position finds that very position |
| Table.MapRows | backend/PetAdoptionAPI/Services/ReportService.cs:25-52 | a `Select` projection has one output per row, in table order |
| Table.Filter | backend/PetAdoptionAPI/Services/AdoptionRequestService.cs:37-43 | a `Where` keeps exactly the rows satisfying the predicate and nothing else |
| Table.FilterAppend | backend/PetAdoptionAPI/Services/AdoptionRequestService.cs:37-43 | a `Where` over two concatenated tables is the concatenation of their `Where`s, so table order is kept |
| Table.FilterCount | backend/PetAdoptionAPI/Services/AdoptionRequestService.cs:37-43 | a `Where` keeps every matching row as often as it is stored and drops every other row |
| Table.SelectWhereAppend | backend/PetAdoptionAPI/Services/AnimalImageService.cs:30-36 | a filtered and projected listing after an append is the old listing plus the new projected row when it matches |
| Table.SelectThenWhere | backend/PetAdoptionAPI/Services/AdoptionRequestService.cs:37-43 | when a test on the projection agrees with the test on the row, `Where` then `Select` equals `Select` then `Where` |
| Table.AppendFresh | backend/PetAdoptionAPI/Services/ReportService.cs:121-122 | appending a row with a fresh key keeps keys unique, finds the new row by its key and leaves every other key's row unchanged |
| Table.ReplaceKeepingKey | backend/PetAdoptionAPI/Services/ReportService.cs:155-181 | replacing a row with one of the same key keeps keys unique, finds the new row by the key and leaves every other key's row unchanged |
| Table.RemoveAt | backend/PetAdoptionAPI/Services/ReportService.cs:188-192 | removing a row takes out exactly that row, keeps keys unique, makes its key absent and leaves every other key's row unchanged |
| ReportModel.ValidReportStatusIff | backend/PetAdoptionAPI/Models/Report.cs:33-36 | the status annotations admit exactly pending, in_progress, resolved and closed |
| ReportModel.ValidReportTypeIff | backend/PetAdoptionAPI/Models/Report.cs:19-22 | the type annotations admit exactly lost, found, abuse and other |
| ReportModel.ValidReportFields | backend/PetAdoptionAPI/Models/Report.cs:15-67 | a valid report has a non-blank title of at most 100 characters, a known type and status, and bounded optional texts |
| ReportServices.ToReadDto | backend/PetAdoptionAPI/Services/ReportService.cs:63-87 | the read DTO of a report carries every column, so the report can be rebuilt from it |
| ReportServices.NewReport | backend/PetAdoptionAPI/Services/ReportService.cs:92-119 | a new report is unverified, dated now, has status pending when none or an empty one is given and the given one otherwise, and its status is valid exactly when that is |
| ReportServices.MergeReport | backend/PetAdoptionAPI/Services/ReportService.cs:159-179 | an update keeps the id, creation date and owner and sets the update date to now |
| ReportServices.MergeReportNoChanges | backend/PetAdoptionAPI/Services/ReportService.cs:153-182 | an update that supplies nothing only moves the update date |
| ReportServices.MergeReportIdempotent | backend/PetAdoptionAPI/Services/ReportService.cs:159-179 | applying the same update twice equals applying it once |
| ReportServices.MergeReportKeepsValid | backend/PetAdoptionAPI/Services/ReportService.cs:159-177 | a valid report stays valid under an update whose supplied values each meet their column's annotations |
| ReportServices.UpdateMayInvalidate | backend/PetAdoptionAPI/Services/ReportService.cs:163 | the update checks nothing: a supplied empty status is written into the report, which is then invalid |
| ReportServices.ReportService.constructor | backend/PetAdoptionAPI/Services/ReportService.cs:17-20 | the service starts over a table with unique keys |
| ReportServices.ReportService.GetAllReports | backend/PetAdoptionAPI/Services/ReportService.cs:23-55 | all reports are listed, one DTO per row in table order, each rebuilding its row |
| ReportServices.ReportService.GetReportById | backend/PetAdoptionAPI/Services/ReportService.cs:58-88 | null exactly when no report has the id; otherwise the DTO of the stored report with it |
| ReportServices.ReportService.CreateReport | backend/PetAdoptionAPI/Services/ReportService.cs:92-150 | the new report is appended, returned as its DTO and found by its id; every other id reads as before |
| ReportServices.ReportService.UpdateReport | backend/PetAdoptionAPI/Services/ReportService.cs:153-183 | false and no change when the id is absent; otherwise the row becomes the merge of the old row and the DTO and every other id reads as before |
| ReportServices.ReportService.DeleteReport | backend/PetAdoptionAPI/Services/ReportService.cs:186-194 | false and no change when the id is absent; otherwise the row is gone and every other id reads as before |
| AnimalModel.ValidAnimalGenderIff | backend/PetAdoptionAPI/Models/Animal.cs:21-24 | the gender annotations admit exactly male, female and not_specified |
| AnimalModel.ValidAnimalStatusIff | backend/PetAdoptionAPI/Models/Animal.cs:33-35 | the status annotations admit exactly not_available, available, adopted, fostered and in_shelter |
| AnimalModel.GenderVocabulariesDiffer | backend/PetAdoptionAPI/Models/Report.cs:62-64 | an animal's not_specified is not a valid report gender and a report's unknown is not a valid animal gender |
| AnimalServices.ToReadDto | backend/PetAdoptionAPI/Services/AnimalService.cs:56-83 | the read DTO of an animal rebuilds the animal and carries no images |
| AnimalServices.NewAnimal | backend/PetAdoptionAPI/Services/AnimalService.cs:86-136 | a new animal is unverified, posted and updated now, with the custodians the DTO names |
| AnimalServices.MergeAnimal | backend/PetAdoptionAPI/Services/AnimalService.cs:139-164 | an update keeps the id, posting date and verified flag and sets the update date to now |
| AnimalServices.MergeAnimalNoChanges | backend/PetAdoptionAPI/Services/AnimalService.cs:139-164 | an update that supplies nothing only moves the update date |
| AnimalServices.MergeAnimalIdempotent | backend/PetAdoptionAPI/Services/AnimalService.cs:139-164 | applying the same update twice equals applying it once |
| AnimalServices.MarkAdopted | backend/PetAdoptionAPI/Services/AnimalService.cs:139-164 | an update supplying only the status adopted changes only the status and update date, and keeps a valid animal valid |
| AnimalServices.CustodiansNeverCleared | backend/PetAdoptionAPI/Services/AnimalService.cs:156-158 | an update can set the user, shelter or foster home of an animal but never clear one |
| AnimalServices.MergeAnimalKeepsValid | backend/PetAdoptionAPI/Services/AnimalService.cs:139-164 | a valid animal stays valid under an update exactly when the update's supplied values are valid |
| AnimalServices.AnimalService.constructor | backend/PetAdoptionAPI/Services/AnimalService.cs:17-20 | the service starts over a table with unique keys |
| AnimalServices.AnimalService.GetAllAnimals | backend/PetAdoptionAPI/Services/AnimalService.cs:23-53 | all animals are listed in table order, each DTO rebuilding its row |
| AnimalServices.AnimalService.GetAnimalById | backend/PetAdoptionAPI/Services/AnimalService.cs:56-83 | null exactly when no animal has the id; otherwise the stored animal's DTO |
| AnimalServices.AnimalService.CreateAnimal | backend/PetAdoptionAPI/Services/AnimalService.cs:86-136 | the new animal is appended, returned and found by its id; every other id reads as before |
| AnimalServices.AnimalService.UpdateAnimal | backend/PetAdoptionAPI/Services/AnimalService.cs:139-164 | false and no change for an absent id; otherwise the row becomes the merge and every other id reads as before |
| AnimalServices.AnimalService.DeleteAnimal | backend/PetAdoptionAPI/Services/AnimalService.cs:167-175 | false and no change for an absent id; otherwise the row is gone and every other id reads as before |
| AnimalImageServices.MapToReadDto | backend/PetAdoptionAPI/Services/AnimalImageService.cs:94-107 | the read DTO of an image rebuilds the image |
| AnimalImageServices.NewAnimalImage | backend/PetAdoptionAPI/Services/AnimalImageService.cs:46-63 | a new image is unverified, uploaded now, main exactly when the DTO says true, and valid exactly when its URL is non-blank |
| AnimalImageServices.MergeAnimalImage | backend/PetAdoptionAPI/Services/AnimalImageService.cs:66-80 | an update keeps the image id, its animal and its upload date |
| AnimalImageServices.MergeAnimalImageNoChanges | backend/PetAdoptionAPI/Services/AnimalImageService.cs:66-80 | an update that supplies nothing leaves the image unchanged |
| AnimalImageServices.MergeAnimalImageIdempotent | backend/PetAdoptionAPI/Services/AnimalImageService.cs:66-80 | applying the same update twice equals applying it once |
| AnimalImageServices.MergeAnimalImageKeepsValid | backend/PetAdoptionAPI/Services/AnimalImageService.cs:66-80 | a valid image stays valid exactly when a supplied URL is non-blank |
| AnimalImageServices.AnimalImageService.constructor | backend/PetAdoptionAPI/Services/AnimalImageService.cs:17-20 | the service starts over a table with unique keys |
| AnimalImageServices.AnimalImageService.GetAllAnimalImages | backend/PetAdoptionAPI/Services/AnimalImageService.cs:23-27 | all images are listed in table order, each DTO rebuilding its row |
| AnimalImageServices.AnimalImageService.GetImagesByAnimalId | backend/PetAdoptionAPI/Services/AnimalImageService.cs:30-36 | the listing holds exactly the stored images of that animal |
| AnimalImageServices.AnimalImageService.ImagesByAnimalFilterAll | backend/PetAdoptionAPI/Services/AnimalImageService.cs:30-36 | an animal's listing is the full listing filtered to that animal: table order kept, each of its image DTOs exactly as often as in the full listing, no other DTO |
| AnimalImageServices.AnimalImageService.GetAnimalImageById | backend/PetAdoptionAPI/Services/AnimalImageService.cs:39-43 | null exactly when no image has the id; otherwise the stored image's DTO |
| AnimalImageServices.AnimalImageService.CreateAnimalImage | backend/PetAdoptionAPI/Services/AnimalImageService.cs:46-63 | the new image is appended and found by its id; the listing of its animal gains it at the end of table order and every other animal's listing is unchanged |
| AnimalImageServices.AnimalImageService.UpdateAnimalImage | backend/PetAdoptionAPI/Services/AnimalImageService.cs:66-80 | false and no change for an absent id; otherwise the row becomes the merge and every other id reads as before |
| AnimalImageServices.AnimalImageService.DeleteAnimalImage | backend/PetAdoptionAPI/Services/AnimalImageService.cs:83-91 | false and no change for an absent id; otherwise the row is gone and every other id reads as before |
| FosterHomeModel.ValidFosterHomeFields | backend/PetAdoptionAPI/Models/FosterHome.cs:14-39 | a valid foster home has capacity at least 1, non-negative counters and a non-blank name of at most 100 characters |
| FosterHomeServices.ToReadDto | backend/PetAdoptionAPI/Services/FosterHomeService.cs:48-69 | the read DTO of a foster home rebuilds it |
| FosterHomeServices.NewFosterHome | backend/PetAdoptionAPI/Services/FosterHomeService.cs:72-110 | a new foster home is unverified, dated now, with both counters 0; its counters are in range exactly when the given capacity is at least 1 |
| FosterHomeServices.MergeFosterHome | backend/PetAdoptionAPI/Services/FosterHomeService.cs:113-132 | an update keeps the id, creation date and both counters and sets the update date to now |
| FosterHomeServices.MergeFosterHomeNoChanges | backend/PetAdoptionAPI/Services/FosterHomeService.cs:113-132 | an update that supplies nothing only moves the update date |
| FosterHomeServices.MergeFosterHomeIdempotent | backend/PetAdoptionAPI/Services/FosterHomeService.cs:113-132 | applying the same update twice equals applying it once |
| FosterHomeServices.CapacityAndVerifiedOverwrite | backend/PetAdoptionAPI/Services/FosterHomeService.cs:113-132 | a supplied capacity or verified flag, false included, is written |
| FosterHomeServices.MergeFosterHomeCounters | backend/PetAdoptionAPI/Services/FosterHomeService.cs:113-132 | after an update the counters of an in-range foster home are in range exactly when no capacity or a capacity of at least 1 is supplied |
| FosterHomeServices.MergeFosterHomeKeepsValid | backend/PetAdoptionAPI/Services/FosterHomeService.cs:113-132 | a valid foster home stays valid exactly when the update's supplied values are valid |
| FosterHomeServices.FosterHomeService.constructor | backend/PetAdoptionAPI/Services/FosterHomeService.cs:17-20 | the service starts over a table with unique keys |
| FosterHomeServices.FosterHomeService.GetAllFosterHomes | backend/PetAdoptionAPI/Services/FosterHomeService.cs:23-45 | all foster homes are listed in table order, each DTO rebuilding its row |
| FosterHomeServices.FosterHomeService.GetFosterHomeById | backend/PetAdoptionAPI/Services/FosterHomeService.cs:48-69 | null exactly when no foster home has the id; otherwise the stored one's DTO |
| FosterHomeServices.FosterHomeService.CreateFosterHome | backend/PetAdoptionAPI/Services/FosterHomeService.cs:72-110 | the new foster home is appended, returned and found by its id; every other id reads as before |
| FosterHomeServices.FosterHomeService.UpdateFosterHome | backend/PetAdoptionAPI/Services/FosterHomeService.cs:113-132 | false and no change for an absent id; otherwise the row becomes the merge and every other id reads as before |
| FosterHomeServices.FosterHomeService.DeleteFosterHome | backend/PetAdoptionAPI/Services/FosterHomeService.cs:135-143 | false and no change for an absent id; otherwise the row is gone and every other id reads as before |
| ShelterModel.ShelterWithDefaults | backend/PetAdoptionAPI/Models/Shelter.cs:42-46 | a shelter built from its descriptive fields is unverified, dated now and has both counters 0 |
| ShelterModel.ShelterWithDefaultsValid | backend/PetAdoptionAPI/Models/Shelter.cs:15-40 | such a shelter is valid exactly when its strings are non-blank, its name fits and its capacity is at least 1 |
| ShelterModel.ValidShelterFields | backend/PetAdoptionAPI/Models/Shelter.cs:25-35 | a valid shelter has capacity at least 1, non-negative counters and a non-blank name of at most 100 characters |
| UserModel.ValidUserRoleIff | backend/PetAdoptionAPI/Models/User.cs:23-27 | the role annotations admit exactly standard, foster_home, shelter and admin |
| UserModel.FirstIndexOf | backend/PetAdoptionAPI/Models/User.cs:20 | finds the first occurrence of a character, or reports that there is none |
| UserModel.LastIndexOf | backend/PetAdoptionAPI/Models/User.cs:20 | finds the last occurrence of a character, or reports that there is none |
| UserModel.IsEmailPatternMatchCorrect | backend/PetAdoptionAPI/Models/User.cs:20 | the direct e-mail test accepts exactly the strings the regular expression matches |
| UserModel.ValidUserEmailIff | backend/PetAdoptionAPI/Models/User.cs:16-21 | a valid address is exactly a pattern match of at most 100 characters |
| UserModel.ValidUserFields | backend/PetAdoptionAPI/Models/User.cs:16-45 | a valid user has an address local@domain.tld of at most 100 characters, a known role and bounded non-blank names and phone number |
| UserModel.EmailAccepted | backend/PetAdoptionAPI/Models/User.cs:20 | an ordinary address with a hyphenated domain is accepted |
| UserModel.EmailShortTldRejected | backend/PetAdoptionAPI/Models/User.cs:20 | a one-letter top-level domain is rejected |
| UserModel.EmailTwoAtsRejected | backend/PetAdoptionAPI/Models/User.cs:20 | an address with two '@' is rejected |
| UserServices.ToReadDto | backend/PetAdoptionAPI/Services/UserService.cs:47-67 | the read DTO of a user rebuilds the user |
| UserServices.NewUser | backend/PetAdoptionAPI/Services/UserService.cs:70-86 | a new user has both verified flags false and was created now, with the DTO's e-mail address, role, names, phone number, address, birth date and profile picture |
| UserServices.NewUserIgnoresFirebaseUid | backend/PetAdoptionAPI/Services/UserService.cs:72-86 | two create DTOs differing only in their Firebase uid give the same user |
| UserServices.MergeUserPatch | backend/PetAdoptionAPI/Services/UserService.cs:130-148 | a patch keeps the id, e-mail address and creation date |
| UserServices.MergeUserUpdate | backend/PetAdoptionAPI/Services/UserService.cs:109-127 | an update keeps the id, e-mail address and creation date |
| UserServices.UpdateAsPatch | backend/PetAdoptionAPI/Services/UserService.cs:119 | an update's birth date is read as absent exactly when it is `DateTime.MinValue` |
| UserServices.MergeUserUpdateIsPatch | backend/PetAdoptionAPI/Services/UserService.cs:109-148 | the update is the patch with a `MinValue` birth date read as absent |
| UserServices.MergeUserPatchNoChanges | backend/PetAdoptionAPI/Services/UserService.cs:130-148 | a patch that supplies nothing leaves the user unchanged |
| UserServices.MergeUserPatchIdempotent | backend/PetAdoptionAPI/Services/UserService.cs:130-148 | applying the same patch twice equals applying it once |
| UserServices.MinValueBirthDate | backend/PetAdoptionAPI/Services/UserService.cs:119 | an update can never set a birth date of `MinValue`, while a patch can |
| UserServices.VerifiedFlagsOverwrite | backend/PetAdoptionAPI/Services/UserService.cs:143-144 | supplied verified flags, false included, are written |
| UserServices.MergeUserPatchKeepsValid | backend/PetAdoptionAPI/Services/UserService.cs:130-148 | a valid user stays valid exactly when the patch's supplied values are valid |
| UserServices.UserService.constructor | backend/PetAdoptionAPI/Services/UserService.cs:17-20 | the service starts over a table with unique keys |
| UserServices.UserService.GetAllUsers | backend/PetAdoptionAPI/Services/UserService.cs:23-44 | all users are listed in table order, each DTO rebuilding its row |
| UserServices.UserService.GetUserById | backend/PetAdoptionAPI/Services/UserService.cs:47-67 | null exactly when no user has the id; otherwise the stored user's DTO |
| UserServices.UserService.CreateUser | backend/PetAdoptionAPI/Services/UserService.cs:70-106 | the new user is appended, returned and found by its id; every other id reads as before |
| UserServices.UserService.UpdateUser | backend/PetAdoptionAPI/Services/UserService.cs:109-127 | false and no change for an absent id; otherwise the row becomes the update's merge and every other id reads as before |
| UserServices.UserService.PatchUser | backend/PetAdoptionAPI/Services/UserService.cs:130-148 | false and no change for an absent id; otherwise the row becomes the patch's merge and every other id reads as before |
| UserServices.UserService.DeleteUser | backend/PetAdoptionAPI/Services/UserService.cs:152-160 | false and no change for an absent id; otherwise the row is gone and every other id reads as before |
| AdoptionRequestServices.MapToReadDto | backend/PetAdoptionAPI/Services/AdoptionRequestService.cs:107-123 | the read DTO of a request rebuilds the request |
| AdoptionRequestServices.NewAdoptionRequest | backend/PetAdoptionAPI/Services/AdoptionRequestService.cs:55-74 | a new request is pending, unanswered, unverified, not completed, dated now, and valid |
| AdoptionRequestServices.MergeAdoptionRequest | backend/PetAdoptionAPI/Services/AdoptionRequestService.cs:77-93 | an update keeps the id, request date, user, animal and message and sets the update date to now |
| AdoptionRequestServices.MergeAdoptionRequestNoChanges | backend/PetAdoptionAPI/Services/AdoptionRequestService.cs:77-93 | an update that supplies nothing only moves the update date |
| AdoptionRequestServices.MergeAdoptionRequestIdempotent | backend/PetAdoptionAPI/Services/AdoptionRequestService.cs:77-93 | applying the same update twice equals applying it once |
| AdoptionRequestServices.ResponseNeverCleared | backend/PetAdoptionAPI/Services/AdoptionRequestService.cs:84-85 | once a request has a response or response date, no update clears it |
| AdoptionRequestServices.MergeAdoptionRequestKeepsValid | backend/PetAdoptionAPI/Services/AdoptionRequestService.cs:77-93 | a valid request stays valid exactly when a supplied status is non-blank and at most 20 characters |
| AdoptionRequestServices.AdoptionRequestService.constructor | backend/PetAdoptionAPI/Services/AdoptionRequestService.cs:17-20 | the service starts over a table with unique keys |
| AdoptionRequestServices.AdoptionRequestService.GetAllAdoptionRequests | backend/PetAdoptionAPI/Services/AdoptionRequestService.cs:23-27 | all requests are listed in table order, each DTO rebuilding its row |
| AdoptionRequestServices.AdoptionRequestService.GetAdoptionRequestById | backend/PetAdoptionAPI/Services/AdoptionRequestService.cs:30-34 | null exactly when no request has the id; otherwise the stored request's DTO |
| AdoptionRequestServices.AdoptionRequestService.GetAdoptionRequestsByUserId | backend/PetAdoptionAPI/Services/AdoptionRequestService.cs:37-43 | the listing holds exactly the stored requests of that user and is no longer than the table |
| AdoptionRequestServices.AdoptionRequestService.GetAdoptionRequestsByAnimalId | backend/PetAdoptionAPI/Services/AdoptionRequestService.cs:46-52 | the listing holds exactly the stored requests for that animal and is no longer than the table |
| AdoptionRequestServices.AdoptionRequestService.RequestsByUserFilterAll | backend/PetAdoptionAPI/Services/AdoptionRequestService.cs:37-43 | a user's listing is the full listing filtered to that user: table order kept, each of its request DTOs exactly as often as in the full listing, no other DTO |
| AdoptionRequestServices.AdoptionRequestService.RequestsByAnimalFilterAll | backend/PetAdoptionAPI/Services/AdoptionRequestService.cs:46-52 | an animal's listing is the full listing filtered to that animal, with the same order and counts |
| AdoptionRequestServices.AdoptionRequestService.CreateAdoptionRequest | backend/PetAdoptionAPI/Services/AdoptionRequestService.cs:55-74 | the new request is appended and found by its id; the listings of its user and of its animal gain it at the end of table order, and all other listings are unchanged |
| AdoptionRequestServices.AdoptionRequestService.UpdateAdoptionRequest | backend/PetAdoptionAPI/Services/AdoptionRequestService.cs:77-93 | false and no change for an absent id; otherwise the row becomes the merge and every other id reads as before |
| AdoptionRequestServices.AdoptionRequestService.DeleteAdoptionRequest | backend/PetAdoptionAPI/Services/AdoptionRequestService.cs:96-104 | false and no change for an absent id; otherwise the row is gone and every other id reads as before |
| AnimalSizeServices.ToReadDto | backend/PetAdoptionAPI/Services/AnimalSizeService.cs:21-33 | the read DTO copies the key, label and description of a size |
| AnimalSizeServices.GetAllAnimalSizes | backend/PetAdoptionAPI/Services/AnimalSizeService.cs:21-33 | all sizes are listed in table order as their DTOs |
| AnimalSizeServices.GetAnimalSizeByKey | backend/PetAdoptionAPI/Services/AnimalSizeService.cs:36-47 | null exactly when no size has the key; otherwise the DTO of a stored size with that key |
| AnimalSizeServices.GetAllAgreesWithGetByKey | backend/PetAdoptionAPI/Services/AnimalSizeService.cs:21-47 | with unique keys, looking up the key of a listed size gives exactly that listing entry |
| AnimalTypeServices.ToReadDto | backend/PetAdoptionAPI/Services/AnimalTypeService.cs:21-30 | the read DTO copies the key and label of a type |
| AnimalTypeServices.GetAllAnimalTypes | backend/PetAdoptionAPI/Services/AnimalTypeService.cs:21-30 | all types are listed in table order as their DTOs |
| AnimalTypeServices.GetAnimalTypeByKey | backend/PetAdoptionAPI/Services/AnimalTypeService.cs:33-45 | null exactly when no type has the key; otherwise the DTO of a stored type with that key |
| AnimalTypeServices.GetAllAgreesWithGetByKey | backend/PetAdoptionAPI/Services/AnimalTypeService.cs:21-45 | with unique keys, looking up the key of a listed type gives exactly that listing entry |

## Left out

- Row order: none of the listing queries has an `OrderBy` (for example
  `backend/PetAdoptionAPI/Services/AdoptionRequestService.cs:25`, `:39-41`, `:48-50`,
  `backend/PetAdoptionAPI/Services/AnimalImageService.cs:25`, `:32-34`, `backend/PetAdoptionAPI/Services/ReportService.cs:25`),
  so PostgreSQL promises no order for their results. An insert may reuse free space earlier in the table, and an updated
  row may move. The model fixes one order instead: creates append, updates stay in place and deletes close the gap. The
  order statements of the `GetAll…` listings, of the `…FilterAll` lemmas and of the listing clauses of
  `CreateAnimalImage` and `CreateAdoptionRequest` are about that model order. The listings' contents and counts do not
  depend on it.
- Controllers, routing, HTTP status codes, authentication and `Program`/`DbContext` configuration are not part of this
  model. Only the services behind them and the entity annotations are modelled.
- Asynchrony and the database round trip are not modelled. Every `await …Async()` is one atomic step on the model's table.
- `DateTime.Now` and `DateTime.UtcNow` are a `now` parameter given in ticks. The model does not tell local time from UTC.
  That matters because a `Now` initialiser default and a `UtcNow` service assignment give different values in the code.
- Each create reads the clock twice, once for the creation date and once for the update date
  (`backend/PetAdoptionAPI/Services/ReportService.cs:100-101`, `backend/PetAdoptionAPI/Services/AnimalService.cs:106-107`,
  `backend/PetAdoptionAPI/Services/FosterHomeService.cs:85-86`, `backend/PetAdoptionAPI/Services/AdoptionRequestService.cs:62-63`).
  The model reads one `now` for both, so in the model a new row's two dates are equal. The code does not guarantee that.
- Store-generated keys (`uuid_generate_v4()` for Guids, the serial `AnimalImageId`) are a fresh-key parameter. The key
  generator itself is not modelled.
- Latitude and longitude (`decimal?`) are opaque integer values. No arithmetic is done on them.
- `AnimalServices.ToReadDto`: the animal DTOs carry coordinates as `double?`. The service casts them to and from the
  entity's `decimal?` (`backend/PetAdoptionAPI/Services/AnimalService.cs:38-39`, `:99-100`, `:152-153`). Such a cast can
  round, and from `double` to `decimal` it can throw `OverflowException`. The model treats both casts as the identity,
  and only that assumption lets the DTO rebuild the animal exactly. Rounding and the exception are not modelled.
- Foreign-key existence, cascading deletes and the navigation properties (`Include`) are not modelled. A create or an update
  may name a user, animal or shelter that does not exist, as the services do not check this.
- `SaveChangesAsync` failing is not modelled. The services do not validate annotations. A row whose value is blank, too
  long or outside its column's vocabulary is kept in the model, as `ReportServices.UpdateMayInvalidate` shows. The
  database's own rejection of such a row is not modelled.
- Create DTOs whose strings feed `[Required]` columns are nullable C# references, and the services copy them into the row
  unchecked (for example `backend/PetAdoptionAPI/Dtos/AnimalCreateDto.cs:7-19`, `backend/PetAdoptionAPI/Dtos/ReportCreateDto.cs`,
  `backend/PetAdoptionAPI/Dtos/UserCreateDto.cs`, `backend/PetAdoptionAPI/Dtos/AnimalImageCreateDto.cs`). The model types
  those fields as `string`, so a create that omits one, leaving a null in a required column, cannot be expressed.
- `GetFosterHomesByNameAsync` is declared on the interface but has no implementation, so there is nothing to model.
- There is no shelter service in the code. The `Shelter` entity is modelled with its annotations and initialiser defaults only.
- `GetUserByFirebaseUid` belongs to the controller layer and is not part of this model. The service never stores the
  create DTO's `FirebaseUid`, which `UserServices.NewUserIgnoresFirebaseUid` states.
- `[EmailAddress]` is not modelled. It is weaker than the regular expression next to it, which is modelled in full.
- Whitespace for `[Required]` is the ASCII set (space, tab, line feed, vertical tab, form feed, carriage return). Other
  Unicode white space is not modelled.
- Lengths count Unicode scalar values, because a Dafny `string` is a sequence of them. .NET's `string.Length`, which
  `[MaxLength]` and `[StringLength]` check, counts UTF-16 code units, so a character outside the Basic Multilingual
  Plane counts once here and twice in .NET. A title of 51 emoji is valid in the model and breaks `[MaxLength(100)]` in
  `backend/PetAdoptionAPI/Models/Report.cs:16`.
- Tracked entities are modelled as values, not objects. The in-place field assignments of an update are modelled as
  replacing the row with the merged value, so aliasing of a tracked object is not captured.
- The update methods assign the merged row in one step rather than field by field. The field-by-field `if` chain is what
  the `Merge…` functions state, one `Patch` per field.
- The annotations of `AnimalSize` and `AnimalType` (`[Required]`, `[MaxLength(50)]`) are not modelled. Their services only read.
- The effect of an update on the order of the per-user and per-animal listings is not stated. Only creation's effect on
  those listings is stated.
