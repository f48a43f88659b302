# AI career canvas: the wizard, its documents and its previews, in Dafny

This project models the core of a React single-page app. The app builds an AI-focused resume and a public portfolio from a profile that the user fills in with an eight-step wizard.

Every part is modelled as pure functions over immutable datatypes:

- **The profile** (`WizardData`) and its default. A partial profile (`Partial<WizardData>`) is a `WizardPatch` with one optional value per top-level key.
- **The wizard's state changes.** These are the shallow `updateData` merge, the key-wise edits of the step editors, the id-keyed list operations on projects and experiences, and the bounded step counter.
- **Loading stored records over the state.** A record's `data` is merged at top level, and then its `template` column is forced into the state.
- **"Save & Preview".**
  - The save title and the portfolio slug.
  - Which records are written, and whether each write is an insert or an update.
  - The database the writes leave behind.
  - The preview URL the page navigates to.
- **The documents.** The classic ATS resume and the public portfolio are each rendered to an abstract section structure, not to markup.
- **The preview page.** It reads the `type`, `resumeId` and `portfolioId` query parameters, loads the named records, and decides which documents to show. It also names the PDF download.

The database is a value of type `Store.Db`: two tables of rows. PostgREST's `.single()` answers a row only when exactly one row matches. Ids that the database or `crypto.randomUUID` would generate are parameters supplied by the caller.

Module layout, one module per source file of the core:

- `WizardTypes`: `src/lib/wizard-types.ts`.
- `WizardState`: the merges of `src/pages/Builder.tsx`.
- `StepPersonal`, `StepEducation`, `StepSkills`, `StepProjects`, `StepExperience`, `StepRole`, `StepCertifications`, `StepOutput`: the wizard steps.
- `ResumeClassicAts`, `PublicPortfolio`, `Preview`, `Builder`: the pages and templates.
- `Slug`: the slug expression of the Builder.

Helper modules:

- `Wrappers`: `Option`, JavaScript truthiness and `||`.
- `Text`: JavaScript `split`, `join`, `trim` and `filter(Boolean)`.
- `KeyedLists`: list operations by id.
- `Store`: tables and `.single()`.
- `Document`: the pieces both templates share.
- `SearchParams`: query strings and `URLSearchParams.get`.
- `SaveAndPreview`: what the preview shows after a save.

Three behaviours of the code that are easy to misread:

- Comma-separated skill tags are trimmed, and empty tags are kept (`PublicPortfolio.Tags`).
- The Builder merges a loaded record over its current state. The preview page merges over the defaults, because its state starts from them.
- On the public page, a stored profile is used as stored. It is not merged with the defaults.

## Model

| member | source | states |
|---|---|---|
| WizardTypes.DefaultIsEmpty | src/lib/wizard-types.ts:67-74 | Every text field of the default profile is empty, `portfolioLink` is absent, and the default project and experience lists are empty |
| WizardTypes.DefaultOutputChoices | src/lib/wizard-types.ts:75-77 | The default output is "resume", with templates "classic-ats" and "minimal-ai" |
| WizardTypes.ParseDocumentType | src/lib/wizard-types.ts:49 | Exactly the strings "resume", "portfolio" and "both" name a document type, and the name read back is the string |
| WizardTypes.DocumentTypeRoundTrip | src/lib/wizard-types.ts:49 | Every document type's name is one of the three strings and parses back to that type |
| WizardTypes.DocumentTypeNamesDistinct | src/lib/wizard-types.ts:49 | Distinct document types have distinct names |
| WizardTypes.AiRolesDistinct | src/lib/wizard-types.ts:54-65 | There are ten roles, pairwise distinct |
| WizardTypes.PatchOf | src/pages/Builder.tsx:72 | A whole profile, stored as record data, holds every key with the profile's value |
| WizardTypes.FieldExtensionality | src/lib/wizard-types.ts:35-52 | Two profiles are equal exactly when they agree on every top-level key |
| WizardState.UpdateData | src/pages/Builder.tsx:60 | After `updateData(p)`, each key present in `p` holds `p`'s value and every other key is unchanged |
| WizardState.UpdateEmpty | src/pages/Builder.tsx:60 | Merging an empty partial changes nothing |
| WizardState.UpdateIdempotent | src/pages/Builder.tsx:60 | Merging the same partial twice is merging it once |
| WizardState.UpdateCommute | src/pages/Builder.tsx:60 | Partials with disjoint keys can be merged in either order |
| WizardState.UpdateWithComplete | src/pages/Builder.tsx:60 | Merging a complete profile replaces the state with it |
| WizardState.MergeRecord | src/pages/Builder.tsx:49 | A loaded record sets its kind's template key to the record's template column; every other key takes the stored value when stored, else keeps the previous value |
| WizardState.MergeSavedRecord | src/pages/Builder.tsx:49 | Loading a record saved from a profile restores that profile, whatever the state was before |
| WizardState.MergeReplacesNestedObjects | src/pages/Builder.tsx:49 | A stored nested object replaces the state's nested object wholesale; the merge is top-level only |
| StepPersonal.SetPersonal | src/components/wizard/StepPersonal.tsx:10-11 | Sets field `f` to the value given, verbatim, and keeps every other personal field |
| StepPersonal.Update | src/components/wizard/StepPersonal.tsx:10-11 | The emitted partial holds only `personalDetails`: field `f` is set and every other field is copied from the state |
| StepPersonal.EditEffect | src/components/wizard/StepPersonal.tsx:11 | After an edit, field `f` holds the value, other personal fields and every other top-level key are unchanged |
| StepPersonal.EditIdempotent | src/components/wizard/StepPersonal.tsx:11 | Repeating an edit is doing it once |
| StepPersonal.EditsCommute | src/components/wizard/StepPersonal.tsx:11 | Edits to distinct fields commute |
| StepEducation.SetEducation | src/components/wizard/StepEducation.tsx:10-11 | Sets field `f` to the raw value, with no numeric validation, and keeps every other education field |
| StepEducation.Update | src/components/wizard/StepEducation.tsx:10-11 | The emitted partial holds only `education`: field `f` is set and every other field is copied |
| StepEducation.EditEffect | src/components/wizard/StepEducation.tsx:11 | After an edit, only `education.f` has changed |
| StepEducation.EditIdempotent | src/components/wizard/StepEducation.tsx:11 | Repeating an edit is doing it once |
| StepEducation.EditsCommute | src/components/wizard/StepEducation.tsx:11 | Edits to distinct fields commute |
| StepSkills.SetSkills | src/components/wizard/StepSkills.tsx:10-11 | Stores the comma-separated text unsplit in category `f` and keeps every other category |
| StepSkills.Update | src/components/wizard/StepSkills.tsx:10-11 | The emitted partial holds only `skills`: category `f` is set and every other category is copied |
| StepSkills.EditEffect | src/components/wizard/StepSkills.tsx:11 | After an edit, only `skills.f` has changed |
| StepSkills.EditIdempotent | src/components/wizard/StepSkills.tsx:11 | Repeating an edit is doing it once |
| StepSkills.EditsCommute | src/components/wizard/StepSkills.tsx:11 | Edits to distinct categories commute |
| StepRole.PickRole | src/components/wizard/StepRole.tsx:19 | Picking a role emits only `targetRole`, with that role |
| StepCertifications.EditCertifications | src/components/wizard/StepCertifications.tsx:23 | Editing the text emits only `certifications`, with that text |
| KeyedLists.UpdateWhere | src/components/wizard/StepProjects.tsx:17-18 | Keeps length and order; exactly the elements with the id are edited, the others are kept |
| KeyedLists.RemoveWhere | src/components/wizard/StepProjects.tsx:21-22 | No element with the id remains; every remaining element is from the input and every element with another id remains |
| KeyedLists.RemoveWhereAppend | src/components/wizard/StepProjects.tsx:22 | Removing by id distributes over concatenation, so order is kept |
| KeyedLists.RemoveWhereCounts | src/components/wizard/StepProjects.tsx:22 | Every element with another id keeps its multiplicity, and the elements with the id are all gone |
| KeyedLists.RemoveWhereUnchangedIff | src/components/wizard/StepProjects.tsx:22 | Removing leaves the list unchanged exactly when no element has the id |
| KeyedLists.UpdateWhereAbsent | src/components/wizard/StepProjects.tsx:18 | Updating an id that is not in the list leaves the list unchanged |
| KeyedLists.UpdateWhereKeepsKeys | src/components/wizard/StepProjects.tsx:18 | An edit that keeps ids keeps every id in place, and so keeps ids unique |
| KeyedLists.RemoveWhereKeepsUnique | src/components/wizard/StepProjects.tsx:22 | Removing by id keeps ids unique |
| KeyedLists.AppendFreshKeepsUnique | src/components/wizard/StepProjects.tsx:13-14 | Appending an element with a fresh id keeps ids unique |
| StepProjects.NewProject | src/components/wizard/StepProjects.tsx:13 | A new project has the given id and every other field empty |
| StepProjects.AddProject | src/components/wizard/StepProjects.tsx:12-14 | Emits only `projects`: the old list, unchanged, followed by one new empty project |
| StepProjects.UpdateProject | src/components/wizard/StepProjects.tsx:17-18 | Emits only `projects`, of the same length: matching projects have field `f` set and keep their other fields, the others are kept |
| StepProjects.RemoveProject | src/components/wizard/StepProjects.tsx:21-22 | Emits only `projects`: no project with the id remains, and every project with another id does |
| StepProjects.UpdateProjectKeepsIds | src/components/wizard/StepProjects.tsx:18 | Updating a non-id field keeps every id in place and keeps ids unique |
| StepProjects.UpdateProjectAbsent | src/components/wizard/StepProjects.tsx:18 | Updating an unknown id leaves the list unchanged |
| StepProjects.RemoveProjectKeepsUnique | src/components/wizard/StepProjects.tsx:22 | Removing keeps ids unique |
| StepProjects.AddProjectKeepsUnique | src/components/wizard/StepProjects.tsx:13-14 | Adding with a fresh id keeps ids unique |
| StepExperience.NewExperience | src/components/wizard/StepExperience.tsx:13 | A new experience has the given id and every other field empty |
| StepExperience.AddExperience | src/components/wizard/StepExperience.tsx:12-14 | Emits only `experiences`: the old list, unchanged, followed by one new empty experience |
| StepExperience.UpdateExperience | src/components/wizard/StepExperience.tsx:17-18 | Emits only `experiences`, of the same length: only the matching experiences' field `f` changes |
| StepExperience.RemoveExperience | src/components/wizard/StepExperience.tsx:21-22 | Emits only `experiences`: exactly the experiences with the id are gone |
| StepExperience.UpdateExperienceKeepsIds | src/components/wizard/StepExperience.tsx:18 | Updating a non-id field keeps every id in place and keeps ids unique |
| StepExperience.UpdateExperienceAbsent | src/components/wizard/StepExperience.tsx:18 | Updating an unknown id leaves the list unchanged |
| StepExperience.RemoveExperienceKeepsUnique | src/components/wizard/StepExperience.tsx:22 | Removing keeps ids unique |
| StepExperience.AddExperienceKeepsUnique | src/components/wizard/StepExperience.tsx:13-14 | Adding with a fresh id keeps ids unique |
| StepOutput.PickDocumentType | src/components/wizard/StepOutput.tsx:39 | Picking a document type emits only `documentType`, so the chosen templates are kept |
| StepOutput.PickResumeTemplate | src/components/wizard/StepOutput.tsx:66 | Picking a resume template emits only `resumeTemplate` |
| StepOutput.PickPortfolioTemplate | src/components/wizard/StepOutput.tsx:93 | Picking a portfolio template emits only `portfolioTemplate` |
| StepOutput.ChoosersCover | src/components/wizard/StepOutput.tsx:28-29 | Every document type shows at least one template chooser, and both exactly for "both" |
| StepOutput.DocTypeChoicesMatchTypes | src/components/wizard/StepOutput.tsx:9-13 | The three radio options are the names of the three document types, in order |
| StepOutput.CataloguesWellFormed | src/components/wizard/StepOutput.tsx:9-25 | Each catalogue has three options with distinct values, and the default templates are offered |
| Document.IfText | src/components/templates/ResumeClassicATS.tsx:23 | A line guarded by a field appears exactly when the field is non-empty, and shows the field |
| Document.Keep | src/components/templates/ResumeClassicATS.tsx:25-29 | Keeps exactly the listed items that pass the guard |
| Document.KeepOrdered | src/components/templates/ResumeClassicATS.tsx:25-29 | Filtering a list in a fixed order keeps that order |
| Document.Contacts | src/components/templates/ResumeClassicATS.tsx:25-29 | A contact item appears exactly when its field is non-empty and listed, and shows the field |
| Document.ContactsOrdered | src/components/templates/ResumeClassicATS.tsx:25-29 | Contact items keep the order of the list they are drawn from |
| Document.CategoryRank | src/components/templates/ResumeClassicATS.tsx:8-14 | Each skill category has its place in the order Languages, AI/ML, Frameworks, Tools, Databases |
| Document.PresentCategories | src/components/templates/ResumeClassicATS.tsx:8-14 | At most five categories, and a category is present exactly when its text is non-empty |
| Document.PresentCategoriesOrdered | src/components/templates/ResumeClassicATS.tsx:8-14 | The present categories come in the fixed order |
| Document.CategoriesDistinct | src/components/templates/ResumeClassicATS.tsx:9-13 | The fixed order lists each category once, and distinct categories have distinct labels |
| Document.EducationBlock | src/components/templates/ResumeClassicATS.tsx:34-47 | The education block appears exactly when `degree` is non-empty; the year and "CGPA: …" lines each appear exactly when their field is non-empty |
| Document.ProjectCard | src/components/templates/ResumeClassicATS.tsx:66-81 | A project shows title and stack; problem and outcome only when non-empty; bullets exactly when contributions are non-empty, split on line breaks |
| Document.ProjectsSection | src/components/templates/ResumeClassicATS.tsx:63-66 | The Projects section appears exactly when there are projects, with one card per project in list order |
| Document.CertificationsSection | src/components/templates/ResumeClassicATS.tsx:109 | The certifications section appears exactly when the text holds a character other than a line break, and lists its non-empty lines |
| Document.CertificationsKeepText | src/components/templates/ResumeClassicATS.tsx:7 | The certification items, concatenated, are the text without its line breaks |
| Document.ContributionsKeepText | src/components/templates/ResumeClassicATS.tsx:75 | The contribution bullets, concatenated, are the text without its line breaks |
| Text.Split | src/components/templates/ResumeClassicATS.tsx:7 | One more piece than separators, and no piece holds the separator |
| Text.JoinSplit | src/pages/PublicPortfolio.tsx:156 | Joining the pieces of a split gives the text back |
| Text.SplitJoin | src/pages/PublicPortfolio.tsx:156 | Splitting pieces joined with a separator they do not hold gives the pieces back |
| Text.NonEmpty | src/components/templates/ResumeClassicATS.tsx:7 | `filter(Boolean)` drops exactly the empty strings |
| Text.NonEmptySingle | src/components/templates/ResumeClassicATS.tsx:7 | One string is kept exactly when it is non-empty |
| Text.NonEmptyAppend | src/components/templates/ResumeClassicATS.tsx:7 | Filtering a concatenation filters each part in order, so the kept strings keep their order and multiplicity |
| Text.ConcatNonEmpty | src/components/templates/ResumeClassicATS.tsx:7 | Dropping empty strings loses no character |
| Text.ConcatSplit | src/components/templates/ResumeClassicATS.tsx:7 | The pieces of a split, concatenated, are the text without its separators |
| Text.SplitLines | src/components/templates/ResumeClassicATS.tsx:75 | Items are never empty and never hold a line break; an empty text gives no items |
| Text.SplitLinesContent | src/components/templates/ResumeClassicATS.tsx:98 | The items, concatenated, are the text without its line breaks, in order |
| Text.SplitLinesEmptyIff | src/components/templates/ResumeClassicATS.tsx:7 | There are no items exactly when the text is only line breaks |
| Text.SplitLinesSingle | src/components/templates/ResumeClassicATS.tsx:7 | A line without a break is one item verbatim, so a whitespace-only line is kept |
| Text.SplitLinesAppend | src/components/templates/ResumeClassicATS.tsx:75 | A first line and a break give that line's item, if any, followed by the items of the rest, in order |
| Text.Trim | src/pages/PublicPortfolio.tsx:157 | The trimmed text is an infix with white space on both sides removed, and it neither starts nor ends with white space |
| Text.TrimIdempotent | src/pages/PublicPortfolio.tsx:157 | Trimming twice is trimming once |
| Text.SplitTrim | src/pages/PublicPortfolio.tsx:156-157 | One trimmed tag per piece: the tag count is the comma count plus one, so empty tags are kept |
| ResumeClassicAts.DisplayName | src/components/templates/ResumeClassicATS.tsx:21 | The header shows the full name, or "Your Name" when it is empty |
| ResumeClassicAts.SkillItems | src/components/templates/ResumeClassicATS.tsx:8-14 | One "Label: value" item per non-empty category, in the fixed order, so at most five |
| ResumeClassicAts.SkillItemsReadBack | src/components/templates/ResumeClassicATS.tsx:8-14 | Each item reads back as its category and that category's text |
| ResumeClassicAts.SkillItemRoundTrip | src/components/templates/ResumeClassicATS.tsx:9-13 | An item "Label: value" parses back to its category and value |
| ResumeClassicAts.SkillItemsCover | src/components/templates/ResumeClassicATS.tsx:8-14 | A category's item is listed exactly when its text is non-empty |
| ResumeClassicAts.SkillsPresentIff | src/components/templates/ResumeClassicATS.tsx:51 | There are skill items exactly when some category is non-empty |
| ResumeClassicAts.SkillsSection | src/components/templates/ResumeClassicATS.tsx:51-60 | The Technical Skills section appears exactly when some category is non-empty |
| ResumeClassicAts.ExperienceItem | src/components/templates/ResumeClassicATS.tsx:91-103 | An experience shows "title — company" and the duration; bullets exactly when the description is non-empty, split on line breaks |
| ResumeClassicAts.ExperienceSection | src/components/templates/ResumeClassicATS.tsx:87-90 | The Experience section appears exactly when there are experiences, one entry each, in order |
| ResumeClassicAts.HeaderOf | src/components/templates/ResumeClassicATS.tsx:19-31 | The header shows the name, the role exactly when non-empty, and each contact exactly when non-empty |
| ResumeClassicAts.AllContactsListed | src/components/templates/ResumeClassicATS.tsx:25-29 | The resume lists all five contact kinds |
| ResumeClassicAts.ResumeContactsOrdered | src/components/templates/ResumeClassicATS.tsx:25-29 | Contacts come in the order email, phone, location, LinkedIn, GitHub |
| ResumeClassicAts.Render | src/components/templates/ResumeClassicATS.tsx:5-121 | The resume is the header, education, skills, projects, experience and certifications sections, each under its own inclusion rule |
| ResumeClassicAts.RenderDefault | src/components/templates/ResumeClassicATS.tsx:16-119 | The default profile renders as "Your Name" with no role, no contacts and no sections |
| ResumeClassicAts.RenderIgnoresChoicesAndIds | src/components/templates/ResumeClassicATS.tsx:6 | The resume does not depend on the output choices or on list ids |
| PublicPortfolio.Tags | src/pages/PublicPortfolio.tsx:156-157 | Tag count is comma count plus one; each tag is the trimmed comma-free piece |
| PublicPortfolio.TagsRoundTrip | src/pages/PublicPortfolio.tsx:156-157 | For text whose pieces are already trimmed, joining the tags with commas gives the text back |
| PublicPortfolio.TagsOfJoined | src/pages/PublicPortfolio.tsx:156-157 | Tags of comma-joined pieces are the pieces, trimmed |
| PublicPortfolio.CardOf | src/pages/PublicPortfolio.tsx:151-162 | A skill card has its category's label and the tags of its text |
| PublicPortfolio.SkillCards | src/pages/PublicPortfolio.tsx:73-77 | One card per non-empty category, in the order Languages, AI/ML, Frameworks, Tools, Databases |
| PublicPortfolio.HeroOf | src/pages/PublicPortfolio.tsx:53-61 | The hero shows the name, the role exactly when non-empty, and location, email, GitHub and LinkedIn exactly when non-empty |
| PublicPortfolio.PortfolioContactsListed | src/pages/PublicPortfolio.tsx:58-61 | The hero lists every contact kind but phone |
| PublicPortfolio.HeroContactsOrdered | src/pages/PublicPortfolio.tsx:58-61 | Hero contacts come in the order location, email, GitHub, LinkedIn |
| PublicPortfolio.Render | src/pages/PublicPortfolio.tsx:45-147 | The portfolio is the hero, skill cards, projects, education and certifications, each under its inclusion rule |
| PublicPortfolio.SharedSectionsAgree | src/pages/PublicPortfolio.tsx:83-141 | Projects, education and certifications are the same as the resume's, with one skill card per resume skill item |
| PublicPortfolio.ExperienceAndPhoneNotShown | src/pages/PublicPortfolio.tsx:45-147 | Experiences and the phone number never affect the page |
| PublicPortfolio.PageFor | src/pages/PublicPortfolio.tsx:12-43 | Loading without a slug; Not Found unless exactly one published row has the slug; otherwise that row's profile |
| PublicPortfolio.PageIgnoresOtherRows | src/pages/PublicPortfolio.tsx:17-18 | A row with another slug, or unpublished, does not change the page |
| PublicPortfolio.DuplicateSlugNotFound | src/pages/PublicPortfolio.tsx:19 | Two published rows with the slug make `.single()` fail, so the page is Not Found |
| PublicPortfolio.OnlyPublishedRowShown | src/pages/PublicPortfolio.tsx:14-21 | The only published row with the slug is the one shown |
| Store.Single | src/pages/Builder.tsx:48 | `.single()` answers a row exactly when one row matches, and then it is that row |
| Store.SingleNoneWhenTwo | src/pages/PublicPortfolio.tsx:19 | Two matching rows make `.single()` answer nothing |
| Store.SingleFindsTheOnlyMatch | src/pages/Builder.tsx:48 | The only matching row is found |
| Store.SingleIgnoresNonMatching | src/pages/Builder.tsx:48 | Rows that do not match do not change the answer |
| Store.UpdateResume | src/pages/Builder.tsx:72 | An update rewrites data, template and title of the rows with the id, and keeps every other row |
| Store.UpdatePortfolio | src/pages/Builder.tsx:82 | An update rewrites data, template, title and slug of the rows with the id, and keeps every other row |
| Store.LoadResume | src/pages/Builder.tsx:48-49 | A found resume is merged over the state with its template; otherwise the state is unchanged |
| Store.LoadPortfolio | src/pages/Builder.tsx:54-55 | A found portfolio is merged over the state with its template; otherwise the state is unchanged |
| Slug.LowerChar | src/pages/Builder.tsx:80 | Lower-casing leaves no ASCII capital, and a character becomes a slug character exactly when it was a letter or digit |
| Slug.Lower | src/pages/Builder.tsx:80 | `toLowerCase` keeps the length, leaves no ASCII capital, and keeps every other character |
| Slug.CollapseShape | src/pages/Builder.tsx:80 | Replacing runs gives only `a-z`, `0-9` and `-` with no `--`; it starts with `-` exactly when the text starts with a non-slug character |
| Slug.CollapseKeepsAlnums | src/pages/Builder.tsx:80 | Replacing runs keeps every slug character, in order |
| Slug.CollapseFixpoint | src/pages/Builder.tsx:80 | Text already over the slug alphabet without `--` is unchanged |
| Slug.StripEdges | src/pages/Builder.tsx:80 | Removing edge hyphens from well-shaped text gives a well-formed core |
| Slug.StripEdgesKeepsAlnums | src/pages/Builder.tsx:80 | Removing edge hyphens keeps every slug character |
| Slug.SlugCore | src/pages/Builder.tsx:80 | The core has only `a-z`, `0-9` and `-`, no `--`, no edge hyphen, and every letter (lower-cased) and digit of the title in order |
| Slug.MakeSlug | src/pages/Builder.tsx:80 | The slug is a well-formed core followed by "-ai" |
| Slug.SlugCoreIdempotent | src/pages/Builder.tsx:80 | The core of a core is itself, and the cores are exactly the fixed points |
| Slug.SlugCoreEmptyIff | src/pages/Builder.tsx:80 | The core is empty exactly when the title has no ASCII letter or digit |
| Slug.CollapseWord | src/pages/Builder.tsx:80 | A run of slug characters passes through unchanged |
| Slug.CollapseGap | src/pages/Builder.tsx:80 | A run of punctuation becomes one hyphen |
| Slug.TwoWordSlug | src/pages/Builder.tsx:80 | Two words with punctuation between and after them give "word1-word2-ai" |
| SearchParams.ParamRoundTrip | src/pages/Preview.tsx:17-19 | A piece `name=value` reads back as its name and value |
| SearchParams.Lookup | src/pages/Preview.tsx:17-19 | A name is found exactly when some piece has it, and its value is then that piece's |
| SearchParams.GetEncoded | src/pages/Preview.tsx:17-19 | A value written into a query reads back from the first piece with its name |
| SearchParams.LookupFirst | src/pages/Preview.tsx:17-19 | `get` answers the first piece with the name |
| Builder.Click | src/pages/Builder.tsx:140-150 | Previous goes back unless on step 0, Next goes on while before step 7, and the step stays in 0..7 |
| Builder.RunStaysValid | src/pages/Builder.tsx:35 | From step 0, or any valid step, every run of clicks stays within the eight steps |
| Builder.NextRun | src/pages/Builder.tsx:143-147 | Next k times moves k steps, stopping at the last step |
| Builder.PreviousRun | src/pages/Builder.tsx:140 | Previous k times moves back k steps, stopping at step 0 |
| Builder.SaveReachable | src/pages/Builder.tsx:143-151 | Next is offered before step 7, and from step 7 on only Save & Preview is offered |
| Builder.Progress | src/pages/Builder.tsx:61 | Progress lies between 12.5 and 100 and is 100 exactly on the last step |
| Builder.StepKeysPartition | src/pages/Builder.tsx:97-106 | Each profile key is written by exactly one step |
| Builder.StepEditsStayInStep | src/pages/Builder.tsx:97-106 | Every step's editor emits only its own keys |
| Builder.Open | src/pages/Builder.tsx:42-58 | Each non-empty id parameter is remembered whether or not its record is found; without parameters the profile is unchanged; with one parameter its record is loaded over the current profile; with both, the two loads compose in the order they land |
| Builder.OpenOrderIrrelevantForSavedPair | src/pages/Builder.tsx:46-57 | Opening a resume and a portfolio saved from one profile restores it, whichever load lands first |
| Builder.SaveTitle | src/pages/Builder.tsx:68 | The title is the full name, or "Untitled" when it is empty |
| Builder.UntitledSave | src/pages/Builder.tsx:72 | Without a name the records are titled "Untitled - Resume" and "Untitled - Portfolio" |
| Builder.TargetFor | src/pages/Builder.tsx:71-75 | A write is an update of the remembered row exactly when an id is remembered, otherwise an insert for the user |
| Builder.SavePlan | src/pages/Builder.tsx:63-87 | Signed out, nothing is written; a resume write for "resume", a portfolio write for "portfolio", both in that order for "both" |
| Builder.SavePlanWritesResumeIff | src/pages/Builder.tsx:70 | The plan writes a resume exactly when signed in with type "resume" or "both" |
| Builder.SavePlanWritesPortfolioIff | src/pages/Builder.tsx:79 | The plan writes a portfolio exactly when signed in with type "portfolio" or "both" |
| Builder.SavePlanResumeFirst | src/pages/Builder.tsx:70-87 | When both are written, the resume is written first |
| Builder.Apply | src/pages/Builder.tsx:72-85 | An insert appends a row with the whole profile, and a new portfolio row is published; an update rewrites the remembered row; the other table is untouched |
| Builder.SaveAppliesPlan | src/pages/Builder.tsx:63-87 | The database after a save is the plan's writes applied in order |
| Builder.Save | src/pages/Builder.tsx:63-95 | Signed out, nothing happens; otherwise the ids of inserted rows are remembered, and the navigation uses the ids from before the save |
| Builder.SaveIntended | src/pages/Builder.tsx:90 | The same writes, with navigation carrying the ids after the save |
| Builder.SavedResumeLoadsBack | src/pages/Builder.tsx:74 | A resume inserted by a save is found by its new id and restores the profile |
| Builder.ResavedResumeLoadsBack | src/pages/Builder.tsx:72 | A resume updated by a save restores the profile |
| Preview.PreviewType | src/pages/Preview.tsx:17 | The type is the query's non-empty `type`, else "resume" |
| Preview.SlugOf | src/pages/Preview.tsx:28-31 | The slug is known exactly when `.single()` finds the portfolio, and then it is that row's slug |
| Preview.Load | src/pages/Preview.tsx:21-36 | Without ids, the default profile and no slug; the slug comes from the portfolio id alone; the resume is loaded over the defaults, then the portfolio over that |
| Preview.LoadBothFields | src/pages/Preview.tsx:21-36 | With both records found, each field comes from the portfolio if it stores it, else from the resume (its template column for `resumeTemplate`), else from the defaults; `portfolioTemplate` is the portfolio's column |
| Preview.PreviewPage | src/pages/Preview.tsx:51-106 | The resume is shown exactly for "resume" and "both"; the portfolio frame exactly for "portfolio" and "both" when a non-empty slug loaded, framing that slug's page |
| Preview.TypeGatingMatchesOutputStep | src/pages/Preview.tsx:51-52 | For each document type, the preview shows the documents whose templates the output step offered |
| Preview.UnknownTypeShowsNothing | src/pages/Preview.tsx:51-52 | A type naming no document type shows nothing |
| Preview.MissingTypeShowsResume | src/pages/Preview.tsx:17 | Without a type, only the resume is shown |
| Preview.PdfFileName | src/pages/Preview.tsx:47 | The file is named after the full name, or "resume", followed by "-ai-resume.pdf" |
| Preview.PdfFileNameEndsWithSuffix | src/pages/Preview.tsx:47 | The file name always ends with "-ai-resume.pdf" after a non-empty stem |
| SaveAndPreview.QueryPairs | src/pages/Builder.tsx:90 | The preview URL is the three pairs type, resumeId and portfolioId, with an absent id written as "" |
| SaveAndPreview.PreviewQueryReadsBack | src/pages/Builder.tsx:90 | The preview page reads back the document type and both ids from the URL the Builder writes |
| SaveAndPreview.PreviewOfQuery | src/pages/Preview.tsx:17-106 | What the preview shows for the Builder's URL, in terms of the document type and the ids |
| SaveAndPreview.FirstSavePreviewsDefault | src/pages/Builder.tsx:90 | As written, a first save previews the default profile's resume and no portfolio |
| SaveAndPreview.FirstSaveIntendedPreview | src/pages/Builder.tsx:90 | With the post-save ids, a first save previews the saved resume and the portfolio under its new slug |
| SaveAndPreview.FirstSaveLoads | src/pages/Preview.tsx:21-36 | The preview's loads of the new records restore the saved profile and its slug |
| SaveAndPreview.FirstSaveResumeLoads | src/pages/Builder.tsx:74 | The new resume row is found by its id and restores the profile |
| SaveAndPreview.FirstSavePortfolioLoads | src/pages/Builder.tsx:84 | The new portfolio row is found by its id, restores the profile and carries the title's slug |

## Left out

- Supabase I/O, authentication and row-level security. The tables are a value. A signed-in user is an optional user id. The database's new row ids are parameters.
- UTF-16: a string here is a sequence of Unicode scalar values, not of JavaScript's UTF-16 code units. A character outside the Basic Multilingual Plane is one `char` here and two code units in JavaScript. No modelled operation shows a length or index, so none tells the two apart.
- Error handling: the `try`/`catch` around a save and the failure toast. The model has no write failures.
- Builder.Save: a save assumes each insert answers its new row. The branch where `insert(...).select().single()` answers nothing, so no id is remembered, is not modelled.
- The `saving` flag, toasts, and React's state scheduling, except for the preview URL. That URL is built from the ids captured when the save began, and is modelled as such.
- Builder.Open: the two lookups run concurrently. Which one lands first is a parameter, not a schedule.
- PDF rasterisation: html2canvas and jsPDF, at src/pages/Preview.tsx:41-46. Only the file name is modelled.
- Markup, CSS, icons, the "→" outcome prefix, and the mis-encoded arrow at src/pages/PublicPortfolio.tsx:100. The documents are section structures.
- Slug.Lower: lower-casing is modelled for ASCII letters only. JavaScript's `toLowerCase` also maps some non-ASCII characters to ASCII letters, such as U+0130 and U+212A. Those characters are treated as non-slug characters here.
- SearchParams.Get: percent-decoding and `+`-decoding of query values are not modelled. The Builder writes values unescaped.
- PublicPortfolio.PageFor: a stored profile that lacks a key the page reads unguarded gives the abstract `RenderError` page. In JavaScript it would throw while rendering. A missing `targetRole` renders like an empty one.
- Stored records whose nested objects lack fields, or whose `data` is `null`. Stored data is a partial profile with complete nested objects.
- src/pages/Dashboard.tsx, src/pages/Auth.tsx and src/pages/Index.tsx are not part of this model. The Dashboard's delete-by-id is `KeyedLists.RemoveWhere`.

## Findings

| source | as written | input that shows it | evidently intended | confidence | as-written member | corrected member |
|---|---|---|---|---|---|---|
| src/pages/Builder.tsx:90 | The preview URL uses `existingResumeId` and `existingPortfolioId` as they were before the save, because the ids set at lines 75 and 85 are not visible to the running handler | A signed-in first save with document type "both": the URL is `type=both&resumeId=&portfolioId=`, so the preview shows the default profile's resume and no portfolio | The URL carries the ids of the records just saved, so the preview shows them | not executed | SaveAndPreview.FirstSavePreviewsDefault | SaveAndPreview.FirstSaveIntendedPreview |
