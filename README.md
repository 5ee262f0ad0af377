# CivitAI model downloader: a verified model of its core

The repository is a pair of Python scripts for mirroring one CivitAI
account's models.

`fetch_all_models.py` does the cataloguing:
- it sanitizes the account name;
- it pages through the listing API, following each page's `nextPage` link and validating it first;
- it files every item under one of five categories (Checkpoints, Embeddings, Lora, Training_Data, Other), with its training-data files, under a cap of 30,000 entries per list;
- it writes a per-user summary ledger, `<name>.txt`.

`civitAI_Model_downloader.py` does the downloading:
- it reads the counts back from that ledger;
- it turns each listing page into one download task per model version, skipping items whose name has already appeared on the page;
- it classifies every file into a sub-folder from its extension and the item's type;
- it sanitizes file and folder names;
- it appends the API token to download URLs;
- it retries a failed or truncated download a bounded number of times.

This project models those pieces in Dafny and proves what they promise.

| Dafny module | Models |
|---|---|
| `Wrappers` | Option and Result |
| `PyStr` | the Python `str` behaviour the scripts rely on (`strip`, `upper`, `in`, `find`, `split`, `replace`, `int()`, `str()`) and the two regex substitutions of the name sanitizer |
| `Listing` | the listing JSON as typed records |
| `Categories` | the two classifiers and the `--download_type` filter |
| `Paths` | `sanitize_name`, `sanitize_directory_name`, `os.path.splitext` and `os.path.join` |
| `Urls` | `sanitize_url_for_logging`, `validate_next_page_url` and the token suffix |
| `Usernames` | `sanitize_username` |
| `Pagination` | `fetch_page`'s messages and `paginate_api` |
| `Aggregation` | `search_for_training_data_files` and `process_items` |
| `Ledger` | `format_summary`, `read_summary_data` and their round trip |
| `Retry` | the retry control of `download_file_or_image` |
| `Orchestrator` | `process_username`'s page loop and counts, and `fetch_all_models` end to end, including the ledger file it writes |

Where the scripts update state step by step, the model does too:
- the pagination loop, the aggregator's list appends, the summary builder, the ledger reader and the retry loop are methods with loops;
- the aggregator's two containers are the fields of a class.

Each of these methods has a specification function beside it, and its postcondition ties its result to that function. The properties are proved about the functions.

The model reproduces the scripts' quirks; it does not correct them:
- the truncation branch of `sanitize_name` always drops the text after the last `_`, even when nothing was cut;
- a negative length bound in that branch slices from the end, as Python does;
- the size check of the retry loop tests `.safetensor`, so it never matches `.safetensors` files;
- the ledger is written under the sanitized account name but read back under the name as given.

Nothing here executes the scripts, or calls the network or the file system. Every such effect is a parameter:
- the listing service is a function from URL to response;
- each download attempt's outcome is a function of the attempt number;
- the script directory is a map from file names to contents.

## Model

| member | source | states |
|---|---|---|
| PyStr.ContainsAt | civitAI_Model_downloader.py:85 | `t in s` holds whenever `t` occurs at some position of `s` |
| PyStr.MissingCharNotContained | civitAI_Model_downloader.py:88 | a string lacking any one character of `t` does not contain `t` |
| PyStr.ContainsTransitive | civitAI_Model_downloader.py:85-88 | a string containing `t` contains every substring of `t` (so a `Total - Count:` line also holds ` - Count:`) |
| PyStr.FindFirst | civitAI_Model_downloader.py:89 | the first occurrence: `t` sits at the returned position and starts at no earlier one |
| PyStr.Find | civitAI_Model_downloader.py:89 | `None` exactly when `t` is absent; otherwise the position of the leftmost occurrence |
| PyStr.FindIs | civitAI_Model_downloader.py:89 | an occurrence with none before it is the one `find` reports |
| PyStr.FindExtends | civitAI_Model_downloader.py:89 | appending text does not move an occurrence that is already present |
| PyStr.Split | civitAI_Model_downloader.py:86 | the pieces of `split`, joined again with the separator, give back the input, and no piece contains the separator; one piece when it is absent, at least two when it is present |
| PyStr.SplitAtFirst | civitAI_Model_downloader.py:89 | `x + sep + y` splits into exactly `[x, y]` when only that one separator occurs |
| PyStr.RemoveAll | civitAI_Model_downloader.py:103 | `replace(pat, "")` only deletes: the result is a subsequence of the input, no longer than it, and the input itself when `pat` is absent |
| PyStr.RemoveAllConcat | civitAI_Model_downloader.py:103 | when no occurrence of `pat` straddles the boundary of `x + y`, removing it from `x + y` is removing it from `x` and from `y` and concatenating |
| PyStr.LStrip | fetch_all_models.py:172 | `lstrip` drops only characters of the set, and what it keeps starts with a character outside it |
| PyStr.LStripSuffix | fetch_all_models.py:172 | what `lstrip` keeps is a suffix of its input |
| PyStr.RStrip | civitAI_Model_downloader.py:54 | `rstrip` drops only characters of the set, and what it keeps ends with a character outside it |
| PyStr.RStripPrefix | civitAI_Model_downloader.py:54 | what `rstrip` keeps is a prefix of its input |
| PyStr.Strip | fetch_all_models.py:93 | the result of `strip` neither starts nor ends with a character of the set |
| PyStr.StripKeepsChar | fetch_all_models.py:100 | every character outside the set survives `strip` |
| PyStr.StripNoop | civitAI_Model_downloader.py:123 | text that neither starts nor ends with a stripped character is left unchanged by all three strips |
| PyStr.StripLeading | civitAI_Model_downloader.py:90 | stripping one strippable character off the front of already-stripped text gives that text |
| PyStr.LStripConcat | civitAI_Model_downloader.py:123 | `lstrip` of `x + y` stops inside `x` when `y` starts with a kept character |
| PyStr.Upper | civitAI_Model_downloader.py:110 | `upper` is character by character and keeps the length |
| PyStr.NatToString | fetch_all_models.py:328 | `str(n)` is all digits |
| PyStr.NatToStringValue | fetch_all_models.py:331 | the digits of `str(n)` denote `n` |
| PyStr.ParseInt | civitAI_Model_downloader.py:90 | `int()` accepts only text that holds a digit |
| PyStr.IsDecimalLiteral | civitAI_Model_downloader.py:90 | the literals `int()` accepts: ASCII digits, with single `_` between digits |
| PyStr.LiteralValue | civitAI_Model_downloader.py:90 | the value of such a literal, its underscores ignored |
| PyStr.ParseIntOfLiteral | civitAI_Model_downloader.py:86-90 | `int()` of a decimal literal (digits, single `_` between them) with an optional `+` or `-`, padded on both sides with whitespace, is the literal's value, negated under `-` |
| PyStr.LiteralStrips | civitAI_Model_downloader.py:86 | `strip()` removes exactly the whitespace padding around an optionally signed literal |
| PyStr.ParseIntOfStripped | civitAI_Model_downloader.py:90 | any text that strips to an optionally signed literal parses to that literal's signed value |
| PyStr.ParseNatToString | civitAI_Model_downloader.py:90 | `int(str(n)) == n` |
| PyStr.CollapseUnderscores | civitAI_Model_downloader.py:114 | after `re.sub('__+', '_')` no two underscores are adjacent, the first and last characters are kept, and deleting every `_` from the result and from the input gives the same text, so only underscores were removed |
| PyStr.CollapseKeepsCharacters | civitAI_Model_downloader.py:114 | collapsing introduces no new characters |
| Categories.CategoryOrderComplete | fetch_all_models.py:406-412 | the key order of `categorized_items` lists every category |
| Categories.CategoryNameInjective | fetch_all_models.py:406-412 | different categories have different names (folder names, dictionary keys, ledger labels) |
| Categories.ParseDownloadType | civitAI_Model_downloader.py:64-76 | an accepted `--download_type` is one of the six names, compared exactly |
| Categories.ParseDownloadTypeName | civitAI_Model_downloader.py:66 | each download type is accepted under its own name and under no other |
| Categories.IsSkippedIsNameTest | civitAI_Model_downloader.py:232-233 | a file is skipped exactly when the download type is neither `All` nor the file's category name |
| Categories.ExtensionsExclusive | civitAI_Model_downloader.py:205-230 | a name ends in at most one of `.zip`, `.safetensors` and `.pt`, so the branch order cannot matter |
| Categories.FileCategory | civitAI_Model_downloader.py:204-230 | each of the five sub-folders is picked exactly for the extensions and types that reach it in the decision table |
| Categories.FileCategoryExamples | civitAI_Model_downloader.py:212-230 | `.safetensors` with no type gives Lora, VAE and LoCon give Other, `.pt` with TextualInversion gives Embeddings, an unknown extension gives Other |
| Categories.CategorizeItem | fetch_all_models.py:141-151 | the category is Checkpoints, Embeddings, Lora or Training_Data exactly when the upper-cased type is `CHECKPOINT`, `TEXTUALINVERSION`, `LORA` or `TRAINING_DATA` respectively, and Other exactly when it is none of them, a missing type included |
| Categories.CategorizeItemIgnoresCase | fetch_all_models.py:143 | types that agree once upper-cased are classified alike |
| Categories.CategorizeItemExamples | fetch_all_models.py:143-151 | `lora` and `LORA` both give Lora, and a missing or unknown type gives Other |
| Categories.ClassifiersAgreeOnTypedCategories | civitAI_Model_downloader.py:204-230 | when the file classifier picks Checkpoints, Embeddings or Training_Data, `categorize_item` picks the same category |
| Categories.ClassifiersDiffer | civitAI_Model_downloader.py:212-223 | the classifiers do differ: an untyped `.safetensors` file is Lora to one and Other to the other, and only `categorize_item` ignores case |
| Paths.RFind | civitAI_Model_downloader.py:120 | `rfind` returns the last position of the character, or -1 when it is absent |
| Paths.RFindLast | civitAI_Model_downloader.py:120 | the last `c` of `x + [c] + y` is the one after `x` when `y` holds none |
| Paths.SplitExt | civitAI_Model_downloader.py:97 | `splitext` splits its input into stem and extension, and the extension is empty or starts with `.` |
| Paths.SplitExtFindsExtension | civitAI_Model_downloader.py:97 | the split falls at the last dot of the last path component when a non-dot precedes it, and nothing is split off otherwise |
| Paths.SplitExtAtLastDot | civitAI_Model_downloader.py:97 | a one-component name splits at its last dot when a non-dot character comes before it |
| Paths.SplitExtExample | civitAI_Model_downloader.py:97 | `lora.pt` gives `("lora", ".pt")` |
| Paths.SplitExtLeadingDotsExample | civitAI_Model_downloader.py:97 | leading dots belong to the stem: `..x.txt` gives `("..x", ".txt")` |
| Paths.SplitExtHiddenFile | civitAI_Model_downloader.py:97 | `.hidden` has no extension |
| Paths.SplitExtDotInDirectory | civitAI_Model_downloader.py:97 | a dot in a directory component gives no extension |
| Paths.Join | civitAI_Model_downloader.py:118 | joining no parts returns the first path |
| Paths.JoinEndsWithLast | civitAI_Model_downloader.py:118 | a joined path ends with its last part |
| Paths.JoinAbsoluteResets | civitAI_Model_downloader.py:118 | an absolute part discards everything joined before it |
| Paths.JoinRelative | civitAI_Model_downloader.py:118 | a relative part is added after one `/` |
| Paths.SanitizeDirectoryName | civitAI_Model_downloader.py:53-54 | the result is the input with its trailing whitespace, and only that, removed |
| Paths.ReplaceForbidden | civitAI_Model_downloader.py:106 | every character of the forbidden class becomes `_`, every other character is kept, and none of the class remains |
| Paths.IsForbidden | civitAI_Model_downloader.py:106 | the character class `[<>:"/\\|?*\x00-\x1f\x7f-\x9f]` |
| Paths.WithoutFolder | civitAI_Model_downloader.py:102-103 | without a folder name the stem is untouched; with one, the result is no longer than the stem and neither starts nor ends with `_` |
| Paths.Truncates | civitAI_Model_downloader.py:117 | the truncation branch runs exactly when subfolder, output directory and account name are all non-empty |
| Paths.MaxBaseLength | civitAI_Model_downloader.py:118-119 | the stem's bound leaves room for at least the extension and the subfolder inside `max_length` |
| Paths.ReservedNamesShort | civitAI_Model_downloader.py:109 | device names are 3 or 4 characters long |
| Paths.OddCharNotReserved | civitAI_Model_downloader.py:109-110 | a name holding a character other than a capital letter or a digit is no device name |
| Paths.LongNameNotReserved | civitAI_Model_downloader.py:109-110 | a name longer than four characters is no device name |
| Paths.SliceTo | civitAI_Model_downloader.py:120 | `s[:k]` is a prefix of `s` of length `min(k, len)`, counted from the end when `k` is negative |
| Paths.BeforeLast | civitAI_Model_downloader.py:120 | `rsplit(c, 1)[0]` is the prefix before the last `c`, or the whole text when `c` is absent |
| Paths.CutAtUnderscore | civitAI_Model_downloader.py:120 | the truncation branch leaves a prefix of the stem, no longer than the bound when the bound is not negative |
| Paths.BlankReserved | civitAI_Model_downloader.py:110-111 | a stem that upper-cases to a device name becomes `_`; any other stem is kept |
| Paths.CollapseKeepsNoForbidden | civitAI_Model_downloader.py:114 | collapsing underscores introduces no forbidden character |
| Paths.CleanSlice | civitAI_Model_downloader.py:120 | cutting a clean stem keeps it clean |
| Paths.CollapseNoop | civitAI_Model_downloader.py:114 | a string without `__` is unchanged by collapsing |
| Paths.ReplaceForbiddenNoop | civitAI_Model_downloader.py:106 | a string without forbidden characters is unchanged by the replacement |
| Paths.SubstitutedNoop | civitAI_Model_downloader.py:106-114 | a clean stem that is not a device name passes the substitutions unchanged |
| Paths.Substituted | civitAI_Model_downloader.py:102-114 | after the folder-name removal and the substitutions, the stem holds no forbidden character and no `__` |
| Paths.TrimUnderscoresAndDots | civitAI_Model_downloader.py:114 | `strip('_.')` keeps a clean stem clean and leaves no `_` or `.` at either end |
| Paths.CleanedStem | civitAI_Model_downloader.py:97-114 | the stem before the length rule is clean and has no `_` or `.` at either end |
| Paths.SanitizedStem | civitAI_Model_downloader.py:97-120 | the kept stem is clean and does not start with `_` or `.`; outside the truncation branch it is the cleaned stem itself, and inside it, a prefix of the cleaned stem |
| Paths.SanitizeName | civitAI_Model_downloader.py:95-123 | a name whose stem equals the given folder name is returned unchanged |
| Paths.SanitizeNameFolderStem | civitAI_Model_downloader.py:99-100 | that early return keeps even forbidden characters |
| Paths.ItemFolderName | civitAI_Model_downloader.py:190 | the item folder's name is the cleaned stem plus extension, stripped: the call passes no output directory or account name, so nothing is truncated |
| Paths.ModelFileName | civitAI_Model_downloader.py:269 | a model file's name is returned as is when its stem is the item name, and is otherwise the cleaned stem plus extension, stripped, never truncated |
| Paths.ImageFileName | civitAI_Model_downloader.py:296-297 | an image's name `<item>_<id>_for_<file>.jpeg` is cleaned the same way, with the item name removed from the stem, never truncated |
| Paths.StripClean | civitAI_Model_downloader.py:123 | the final strip keeps a clean stem clean |
| Paths.StripBeforeExtension | civitAI_Model_downloader.py:122-123 | with an extension that starts and ends in kept characters, the final strip acts only on the stem's left end |
| Paths.StripStemThenExtension | civitAI_Model_downloader.py:122-123 | the final strip of stem plus dotted extension leaves the extension in place with a clean text before it |
| Paths.SanitizeNameKeepsExtension | civitAI_Model_downloader.py:95-123 | apart from the early return, the result ends with the original extension, and no forbidden character comes before it |
| Paths.ReservedStemLeavesExtension | civitAI_Model_downloader.py:108-123 | a stem that upper-cases to a device name vanishes, so the result is the stripped extension alone |
| Paths.ReservedStemVanishes | civitAI_Model_downloader.py:110-114 | the `_` that replaces a device name is removed by `strip('_.')` |
| Paths.ReservedExample | civitAI_Model_downloader.py:109-114 | `CON.txt` becomes `.txt` |
| Paths.ReservedLowerCaseExample | civitAI_Model_downloader.py:110 | the device-name test ignores case: `lpt1.bin` becomes `.bin` |
| Paths.TruncationDropsLastSegment | civitAI_Model_downloader.py:117-120 | in the truncation branch, a stem that fits but holds `_` still loses its last `_` segment |
| Paths.NegativeBoundCountsFromEnd | civitAI_Model_downloader.py:119-120 | a negative bound cuts from the end instead of emptying the stem |
| Paths.CleanedStemNoop | civitAI_Model_downloader.py:102-114 | a stem with nothing to clean passes the cleaning unchanged |
| Paths.NegativeBoundCut | civitAI_Model_downloader.py:120 | `"abc_def"` with bound -2 gives `"abc"` |
| Urls.SanitizeUrlForLogging | fetch_all_models.py:74-81 | the logged form is scheme, `://`, host and path only, or `[invalid URL]` when parsing fails |
| Urls.LoggingIgnoresQuery | fetch_all_models.py:78 | the logged form does not depend on the raw text, params, query or fragment |
| Urls.LoggingHasNoQuery | fetch_all_models.py:75-79 | the logged form holds neither `?` nor `#`, so no query string, and no token in one, reaches the log |
| Urls.IsAllowedPageUrl | fetch_all_models.py:126-135 | the three tests: `https`, an allowed host and a path under `/api/` |
| Urls.ValidateNextPageUrl | fetch_all_models.py:118-138 | the result is `None` or the input unchanged; it is the input exactly when the input is non-empty, parses, uses `https`, names an allowed host and has a path under `/api/` |
| Urls.ValidateIdempotent | fetch_all_models.py:118-135 | validating twice is validating once |
| Urls.ValidateRejectsHttp | fetch_all_models.py:126-128 | a plain `http` link is refused, whatever its host |
| Urls.ValidateAcceptsListing | fetch_all_models.py:126-135 | an `https` link to `civitai.com/api/v1/models` passes, with any query |
| Urls.WithToken | civitAI_Model_downloader.py:264-267 | the suffix comes after the URL, starting with `&` when the URL already has a `?` and with `?` otherwise, and ends in `&nsfw=true` |
| Urls.WithTokenCarriesToken | civitAI_Model_downloader.py:264-267 | the result contains `token=<token>` |
| Urls.WithTokenStartsQuery | civitAI_Model_downloader.py:266-267 | with no earlier `?`, the added `?` is the first one in the result |
| Usernames.ReplaceDisallowed | fetch_all_models.py:90 | every character outside `[a-zA-Z0-9_-]` becomes `_`, and every allowed one is kept |
| Usernames.Cleaned | fetch_all_models.py:90-93 | after the replacement and `strip('_.')`, only allowed characters remain and none at either end is `_` |
| Usernames.Prefixed | fetch_all_models.py:104-105 | the result is never all digits, and ends with the name it was given |
| Usernames.CutToMaxLength | fetch_all_models.py:112-113 | `safe[:64]` is a prefix of at most 64 characters, the name itself when it fits |
| Usernames.ValidUsername | fetch_all_models.py:84-115 | non-empty, at most 64 characters of `[A-Za-z0-9_-]`, not starting with `_`, and no device name in any case |
| Usernames.PrefixedKeepsShape | fetch_all_models.py:104-105 | the `user_` prefix keeps the name non-empty, of allowed characters and not starting with `_` |
| Usernames.ShortCutIsIdentity | fetch_all_models.py:112-113 | a name shorter than 64 characters is not cut |
| Usernames.RejectReservedAndCut | fetch_all_models.py:107-113 | the device-name error comes exactly for a device name in any case; otherwise the name is cut to 64 characters |
| Usernames.SanitizeUsername | fetch_all_models.py:84-115 | an accepted name is non-empty, at most 64 characters long, made of `[A-Za-z0-9_-]`, does not start with `_` and upper-cases to no device name |
| Usernames.SanitizeUsernameOutcomes | fetch_all_models.py:84-115 | each of the four errors is raised exactly under its own condition, checked in the source's order; an accepted name is the cleaned name, with `user_` added when it is all digits, cut to 64 characters |
| Usernames.SanitizeUsernameAccepts | fetch_all_models.py:95-115 | a name that passes every test is accepted as the cleaned, prefixed and cut name |
| Usernames.SanitizeUsernameAccepted | fetch_all_models.py:86-115 | conversely, an accepted name passed the emptiness and alphanumeric tests and is that value |
| Usernames.StripLeavesKept | fetch_all_models.py:100 | a name with a character other than `_` and `-` survives `strip('_-')` |
| Usernames.KeptCharIsAlphanumeric | fetch_all_models.py:99-101 | a cleaned name that survives `strip('_-')` holds a letter or digit |
| Usernames.PrefixedHasAlphanumeric | fetch_all_models.py:104-105 | adding the `user_` prefix keeps that letter or digit |
| Usernames.ShortResultIsPrefixed | fetch_all_models.py:103-115 | an accepted name shorter than 64 characters is the cleaned name, prefixed when it is all digits |
| Usernames.ShortResultHasAlphanumeric | fetch_all_models.py:99-113 | an accepted name shorter than 64 characters holds a letter or digit |
| Usernames.CleanedNoop | fetch_all_models.py:90-93 | a name of allowed characters without edge underscores is unchanged by cleaning |
| Usernames.CleanNameIsKept | fetch_all_models.py:84-115 | a clean, not all-digit, non-reserved name of at most 64 characters is accepted unchanged |
| Usernames.CleanNameSurvives | fetch_all_models.py:90-113 | such a name passes cleaning, the alphanumeric test, the prefix step and the cut unchanged |
| Usernames.CutCanLeaveOnlyHyphens | fetch_all_models.py:99-113 | the cut comes after the alphanumeric test: 64 hyphens and a letter are accepted as 64 hyphens, which hold no letter or digit |
| Usernames.DigitsGetPrefix | fetch_all_models.py:104-105 | `"123"` becomes `"user_123"` |
| Usernames.SlashBecomesUnderscore | fetch_all_models.py:90 | `"a/b"` becomes `"a_b"` |
| Usernames.EmptyExample | fetch_all_models.py:86-87 | the empty name is refused |
| Usernames.DotsExample | fetch_all_models.py:93-97 | a name of dots cleans to nothing and is refused |
| Usernames.PunctuationExample | fetch_all_models.py:100-101 | a name of `_` and `-` is refused for holding no letter or digit |
| Usernames.ReservedExample | fetch_all_models.py:108-109 | `con` is refused as a device name |
| Pagination.StartUrl | fetch_all_models.py:285 | the first URL is the listing endpoint with `?username=`…`&nsfw=true` |
| Pagination.FailureMessage | fetch_all_models.py:188-215 | every failure gives a non-empty user-facing message |
| Pagination.RateLimitReportsWait | fetch_all_models.py:197-202 | a 429 with `Retry-After: n` reports a wait of `n` seconds |
| Pagination.RateLimitDropsLeadingZeros | fetch_all_models.py:199-202 | `Retry-After: 07` and `7` give the same message |
| Pagination.UnlistedStatusIsUnknown | fetch_all_models.py:189-206 | any other status below 500 gets the generic message, with the status shown as `unknown` |
| Pagination.NextLink | fetch_all_models.py:312-313 | the next URL is there exactly when the link validates, and then it is the link's own non-empty raw text |
| Pagination.Paginate | fetch_all_models.py:289-313 | every yielded page had its URL fetched, and nothing is fetched exactly when the loop test or the cycle test stops it at once |
| Pagination.PaginateAll | fetch_all_models.py:279-317 | the first fetch is always the listing URL for the account |
| Pagination.PaginateStep | fetch_all_models.py:289-313 | a round that fetches a page with metadata records that URL and page, then follows the validated link |
| Pagination.FetchBound | fetch_all_models.py:289-296 | at most 1000 fetches, and the page-limit stop only after exactly as many as the ceiling allows |
| Pagination.NoRefetch | fetch_all_models.py:289-295 | no URL is fetched twice, and none already in `seen_pages` is fetched at all |
| Pagination.FetchesFollowLinks | fetch_all_models.py:289-313 | the fetched URLs are successive values of `next_page`: each yielded page is its URL's data, each later URL is the validated link of the page before it, and only the last fetch can yield no page |
| Pagination.LaterFetchesAreValidated | fetch_all_models.py:312-313 | every URL after the first came from the previous page's `nextPage` and passed the `https`, host and `/api/` tests |
| Pagination.StopHasCause | fetch_all_models.py:289-313 | every way of stopping has its cause: the last response for a failure or empty data, the last page for missing metadata, a URL already seen for a cycle |
| Pagination.CycleOfTwo | fetch_all_models.py:290-293 | links A → B → A stop as a cycle after exactly two fetches |
| Pagination.PaginateApi | fetch_all_models.py:279-317 | the loop over `next_page`, `seen_pages` and `page_count`, `break`s included, gives the specification's URLs, pages and stop |
| Aggregation.TruncateName | fetch_all_models.py:167-168 | a name is cut to its first 500 characters and shorter names are kept |
| Aggregation.ReplaceSlashes | fetch_all_models.py:172 | `/` and `\` become `_`, and every other character is kept |
| Aggregation.CleanTrainingName | fetch_all_models.py:167-172 | a kept training-data name is at most 500 characters, holds no `/` or `\`, and does not start with `.` |
| Aggregation.CleanTrainingNameOfPlainName | fetch_all_models.py:170-172 | a short name with no separator and no leading dot is kept as it is |
| Aggregation.CleanTrainingNameExample | fetch_all_models.py:170-172 | `"../x"` is kept as `"_x"` |
| Aggregation.FileContribution | fetch_all_models.py:162-174 | a file contributes exactly when its type is exactly `"Training Data"` and its cleaned name is non-empty, and then it contributes that name |
| Aggregation.FileNames | fetch_all_models.py:161-174 | a version gives at most one name per file |
| Aggregation.FileNamesEmpty | fetch_all_models.py:161-174 | a version gives no name exactly when none of its files is a `"Training Data"` file with a non-empty cleaned name |
| Aggregation.VersionNames | fetch_all_models.py:160-174 | the names of the versions, version by version, in order |
| Aggregation.VersionNamesEmpty | fetch_all_models.py:160-174 | the versions give no name exactly when no file of any version contributes one |
| Aggregation.TrainingDataFiles | fetch_all_models.py:154-175 | the search comes back empty exactly when no file of the item contributes a name |
| Aggregation.FileNamesAppend | fetch_all_models.py:161-174 | the names keep the files' order |
| Aggregation.OtherTypesContributeNothing | fetch_all_models.py:162 | files of any other type are passed over |
| Aggregation.FileNamesSafe | fetch_all_models.py:161-174 | every name from one version is non-empty and safe |
| Aggregation.VersionNamesSafe | fetch_all_models.py:160-174 | every name from all versions is non-empty and safe |
| Aggregation.TrainingDataFilesSafe | fetch_all_models.py:154-175 | every name the search returns is non-empty, at most 500 characters, free of `/` and `\`, and does not start with `.` |
| Aggregation.AppendFileNames | fetch_all_models.py:161-174 | the inner loop appends exactly that version's names, in order |
| Aggregation.SearchForTrainingDataFiles | fetch_all_models.py:154-175 | the nested loops return the names of the versions in order, and within each version the names of its files in order |
| Aggregation.EmptyTally | fetch_all_models.py:406-413 | the starting tally is within the caps and `other_item_types` mirrors its empty Other list |
| Aggregation.FirstFiles | fetch_all_models.py:250-256 | `files[:remaining]` is nothing when `remaining <= 0`, and otherwise the first `min(len(files), remaining)` files |
| Aggregation.AddTrainingFiles | fetch_all_models.py:247-261 | the extend changes Training_Data alone, appending the first `30000 - len` files, or nothing when the list is full, and leaves every other list as it was |
| Aggregation.AddTrainingFilesWithinCap | fetch_all_models.py:248-256 | adding `files[:remaining_capacity]` keeps every list within 30,000 |
| Aggregation.ProcessItem | fetch_all_models.py:220-266 | one item leaves all five lists in place |
| Aggregation.ProcessItems | fetch_all_models.py:218-266 | a batch of items leaves all five lists in place |
| Aggregation.ProcessItemWithinCaps | fetch_all_models.py:239-266 | one item keeps every list and `other_item_types` within 30,000 |
| Aggregation.ProcessItemExtends | fetch_all_models.py:244-266 | one item only appends: each list's old contents are a prefix of its new ones |
| Aggregation.FullCategoryAddsNothing | fetch_all_models.py:239-242 | an item whose category list is full adds nothing anywhere, its training-data files included |
| Aggregation.OthersOnlyFromOther | fetch_all_models.py:263-266 | only items classified Other reach `other_item_types`, paired with their raw type |
| Aggregation.AcceptedNameIsFiled | fetch_all_models.py:237-244 | when its list has room, an item outside Training_Data gets its name, truncated to 500 characters, appended to that list and nothing else |
| Aggregation.TrainingFilesFiled | fetch_all_models.py:244-261 | an item whose list has room gets its training-data files appended to Training_Data after its own name when that is its list, capped by the room left, and changes no list outside its own and Training_Data |
| Aggregation.ProcessItemsWithinCaps | fetch_all_models.py:218-266 | the caps hold after any sequence of items |
| Aggregation.ProcessItemsExtends | fetch_all_models.py:218-266 | no sequence of items removes or reorders an entry |
| Aggregation.ProcessItemsAppend | fetch_all_models.py:421-424 | processing two batches in turn is processing them together |
| Aggregation.ProcessItemMirror | fetch_all_models.py:240-266 | one item keeps `other_item_types` in step with the Other list |
| Aggregation.ProcessItemsMirror | fetch_all_models.py:218-266 | `other_item_types`, without its types, equals the Other list after any sequence of items |
| Aggregation.Aggregator.constructor | fetch_all_models.py:406-413 | five empty lists and an empty `other_item_types` |
| Aggregation.Aggregator.ProcessOne | fetch_all_models.py:221-266 | the in-place appends of one loop pass leave the containers as `ProcessItem` says |
| Aggregation.Aggregator.ProcessAll | fetch_all_models.py:218-266 | `process_items` leaves the containers as `ProcessItems` says |
| Ledger.CountLine | fetch_all_models.py:328-331 | `f"{tag} - Count: {n}\n"` |
| Ledger.TypeText | fetch_all_models.py:338 | the type is shown as `None` exactly when it is missing or is the text `None` |
| Ledger.NameLines | fetch_all_models.py:340-341 | one detailed line per name |
| Ledger.OtherLines | fetch_all_models.py:337-338 | one detailed line per `other_item_types` entry |
| Ledger.CountLines | fetch_all_models.py:330-331 | one count line per category |
| Ledger.Header | fetch_all_models.py:335 | `f"\n{category}:\n"` |
| Ledger.ItemLines | fetch_all_models.py:336-341 | `other_item_types` lines under Other, the category's own list otherwise |
| Ledger.Listing | fetch_all_models.py:334-341 | each category's header followed by its lines, in the given order |
| Ledger.TotalCount | fetch_all_models.py:327 | the sum of the five list lengths |
| Ledger.SummaryLines | fetch_all_models.py:326-341 | the lines start with `Summary:\n` and the total line, followed by one count line per category in key order |
| Ledger.FormatSummary | fetch_all_models.py:320-343 | the loops build the summary text: heading, total, count lines in key order, then the detailed listing |
| Ledger.AppendCountLines | fetch_all_models.py:330-331 | the count loop appends one line per category, in order |
| Ledger.AppendListing | fetch_all_models.py:334-341 | the listing loop appends each category's header and lines, in order |
| Ledger.AppendSection | fetch_all_models.py:335-341 | one category gets its header, then `other_item_types` for Other and its own list otherwise |
| Ledger.AppendNameLines | fetch_all_models.py:340-341 | one line per name, in order |
| Ledger.AppendOtherLines | fetch_all_models.py:337-338 | one line per `(name, type)` pair, in order |
| Ledger.NormalizeNewlines | civitAI_Model_downloader.py:83 | text-mode reading leaves no `\r`, and text without one is unchanged |
| Ledger.SplitLines | civitAI_Model_downloader.py:84 | `for line in file`: each line up to and including its `\n` |
| Ledger.LineLength | civitAI_Model_downloader.py:84 | the first line ends at the first `\n`, or at the end of the text |
| Ledger.SplitLinesJoin | civitAI_Model_downloader.py:84 | the lines joined back give the text |
| Ledger.SplitLinesAreLines | civitAI_Model_downloader.py:84 | every line but the last ends in its only `\n` |
| Ledger.LineSplitsToItself | civitAI_Model_downloader.py:84 | a complete line is read as itself |
| Ledger.SplitLinesAppend | civitAI_Model_downloader.py:84 | text ending in `\n` is read as its own lines, and what follows starts a fresh line |
| Ledger.MarkerNested | civitAI_Model_downloader.py:85-88 | the `Total` marker contains the count marker |
| Ledger.MarkerColon | civitAI_Model_downloader.py:85-86 | a line with the `Total` marker has a colon |
| Ledger.TotalMarkerHasColon | civitAI_Model_downloader.py:85-86 | the stripped `Total` line splits at `:` into at least two parts, so `[1]` exists |
| Ledger.ParseLine | civitAI_Model_downloader.py:85-90 | a line without the count marker changes nothing, and a parsed line only adds or overwrites keys |
| Ledger.ParseFrom | civitAI_Model_downloader.py:84-90 | the line loop only adds or overwrites keys |
| Ledger.ReadSummary | civitAI_Model_downloader.py:78-93 | a missing or empty ledger reads as `{}` |
| Ledger.ReadSummaryData | civitAI_Model_downloader.py:78-93 | the loop gives `{}` for a missing file, and otherwise the specification's parse, stopping at the first `ValueError` |
| Ledger.ParseFromAppend | civitAI_Model_downloader.py:84-90 | reading two stretches of lines is reading the first, then the second from where the first left off; an error in the first ends the read |
| Ledger.ReadAppend | civitAI_Model_downloader.py:84-90 | two consecutive stretches of text are read in turn |
| Ledger.ReadOneLine | civitAI_Model_downloader.py:84-90 | a complete line is parsed in one step |
| Ledger.NeutralLine | civitAI_Model_downloader.py:85-90 | a complete line without the count marker leaves the dictionary unchanged |
| Ledger.HeaderNeutral | fetch_all_models.py:335 | a category header leaves the dictionary unchanged |
| Ledger.ListedLinesNeutral | civitAI_Model_downloader.py:85-90 | lines without the count marker leave the dictionary unchanged |
| Ledger.SectionNeutral | fetch_all_models.py:334-341 | one section of the detailed listing leaves the dictionary unchanged |
| Ledger.ListingNeutral | fetch_all_models.py:333-341 | the whole detailed listing leaves the dictionary unchanged |
| Ledger.TailNeutral | fetch_all_models.py:333-341 | the `Detailed Listing:` heading and the listing after it leave the dictionary unchanged |
| Ledger.SpacedWord | civitAI_Model_downloader.py:89-90 | the text after the count marker strips to the count, and holds no further marker or colon |
| Ledger.StripCountLine | civitAI_Model_downloader.py:89 | stripping a count line removes only its `\n` |
| Ledger.CountLineShape | fetch_all_models.py:331 | a category count line is one complete line with the count marker and without the `Total` marker |
| Ledger.CountLineFields | civitAI_Model_downloader.py:89 | split at the count marker, a count line gives exactly its tag and its count text |
| Ledger.CountLineParses | civitAI_Model_downloader.py:88-90 | a category count line sets its tag to its number |
| Ledger.NonNumericCount | civitAI_Model_downloader.py:90 | a count that `int()` refuses makes the line an error |
| Ledger.TotalLineShape | fetch_all_models.py:328 | the total line is one complete line holding the `Total` marker |
| Ledger.ColonFields | civitAI_Model_downloader.py:86 | split at `:`, a count line whose tag has no colon gives the text before the colon and the count text |
| Ledger.TotalLineFields | civitAI_Model_downloader.py:86 | the total line splits at `:` into its label and the count |
| Ledger.TotalLineParses | civitAI_Model_downloader.py:85-87 | the total line sets `Total` to its number |
| Ledger.LaterLineWins | civitAI_Model_downloader.py:90 | a later count line for a key overwrites whatever the earlier lines left there |
| Ledger.DigitsAreCountWord | fetch_all_models.py:331 | `str(n)` is count text the parser reads back |
| Ledger.CategoryNameIsLabel | fetch_all_models.py:331 | every category name is a tag the parser reads back |
| Ledger.CategoryLineRead | civitAI_Model_downloader.py:88-90 | a count line read on its own sets its tag |
| Ledger.CountLinesParse | civitAI_Model_downloader.py:84-90 | reading the count lines sets each category's name to its list length |
| Ledger.FiveCounts | fetch_all_models.py:330-331 | the five count lines give the five names with their list lengths |
| Ledger.SummaryText | fetch_all_models.py:326-343 | the summary text is `Summary:\n`, the total line, the count lines, the heading and the listing, in that order |
| Ledger.HeadingThenTotal | civitAI_Model_downloader.py:85-87 | a heading without the marker, followed by the total line, sets only `Total` |
| Ledger.HeadParses | fetch_all_models.py:326-328 | `Summary:\n` and the total line set only `Total` |
| Ledger.ReadThree | civitAI_Model_downloader.py:84-90 | three stretches of whole lines are read in turn |
| Ledger.SummaryParses | fetch_all_models.py:320-343 | reading the whole summary gives `Total` and the five counts |
| Ledger.SummaryRoundTrip | civitAI_Model_downloader.py:78-93 | reading back what `format_summary` wrote gives `Total` as the sum of the list lengths and each category's list length under its name, provided no detailed line holds the count marker |
| Ledger.PlainNameIsListed | fetch_all_models.py:340-341 | a name without line breaks or colons gives a detailed line the reader passes over |
| Ledger.OtherSectionNamesOtherList | fetch_all_models.py:336-338 | the Other section is written from `other_item_types`, yet it names the Other list's items, in order, each with its recorded type |
| Ledger.BadCountAborts | civitAI_Model_downloader.py:90 | a non-numeric count ends the read with an error, not a partial dictionary |
| Retry.Download | civitAI_Model_downloader.py:126-168 | a call makes no more requests than its retry budget, returns `True` only with the file in place, and an existing file stays |
| Retry.TooSmall | civitAI_Model_downloader.py:148 | the size check: a path ending in `.safetensor` and under 4 MiB |
| Retry.Budget | civitAI_Model_downloader.py:149-163 | a call makes at least one attempt, and its retries take the counter up to `max_retries`, or make none when it is already there |
| Retry.DownloadFileOrImage | civitAI_Model_downloader.py:126-168 | the loop with an attempt counter and an exists flag returns exactly what the recursion does: at most `max(max_retries, 0) + 1` requests, none and `False` for an existing file, one and `False` for a first-attempt 404 |
| Retry.NotFoundStops | civitAI_Model_downloader.py:136-138 | a 404 on any attempt ends the call with one request, `False` and no file |
| Retry.NotFoundAfterErrors | civitAI_Model_downloader.py:126-163 | failures that wrote nothing, within the retry budget, followed by a 404: one request per attempt, `False` and no file |
| Retry.RetryAfterWriteStops | civitAI_Model_downloader.py:128-130 | once an attempt has created the file, its retry stops at the existence check: `False` after one request |
| Retry.SafetensorsNeverTooSmall | civitAI_Model_downloader.py:148 | the size check tests `.safetensor` and never fires for `.safetensors` files |
| Retry.SafetensorsCompleteSucceeds | civitAI_Model_downloader.py:148-158 | so a finished `.safetensors` download succeeds, however small |
| Retry.DownloadSucceeds | civitAI_Model_downloader.py:126-168 | a call succeeds exactly when, after failures that wrote nothing and within the budget, an attempt finishes a file that passes the size check |
| Orchestrator.VersionTasks | civitAI_Model_downloader.py:398-404 | an item gives one task per model version |
| Orchestrator.TasksFrom | civitAI_Model_downloader.py:391-404 | no task is for a name taken before the page's remaining items, and every task carries its version's `baseModel` |
| Orchestrator.PageTasks | civitAI_Model_downloader.py:389-404 | a page's tasks start with all the versions of its first item |
| Orchestrator.AllTasks | civitAI_Model_downloader.py:389-404 | over successive pages, every task carries its version's `baseModel` |
| Orchestrator.FirstOccurrenceTasks | civitAI_Model_downloader.py:391-396 | reference definition: the page's items in order, each expanded unless an earlier item has its name; every task names an item of the page |
| Orchestrator.TasksFromAppend | civitAI_Model_downloader.py:391-404 | the second stretch of a page starts with every name of the first already taken |
| Orchestrator.PageTasksAreFirstOccurrences | civitAI_Model_downloader.py:389-404 | a page's tasks are exactly those of the first item of each name, in page order |
| Orchestrator.DuplicateNameIgnored | civitAI_Model_downloader.py:394-395 | an item whose name appeared earlier on the page contributes no task |
| Orchestrator.RepeatOnNextPage | civitAI_Model_downloader.py:389 | the seen-name set starts empty on each page: a repeat on the same page is dropped, a repeat on the next page is expanded again |
| Orchestrator.TasksFromPage | civitAI_Model_downloader.py:398-403 | every task names an item of the page and one of its versions, with `baseModel` copied from that version |
| Orchestrator.TasksFromCons | civitAI_Model_downloader.py:391-404 | one round of the item loop skips a taken name, or expands the item and takes its name |
| Orchestrator.ProcessPageItems | civitAI_Model_downloader.py:387-404 | the two loops build exactly the page's task list |
| Orchestrator.SubmitVersions | civitAI_Model_downloader.py:398-404 | the inner loop appends one task per version, in order |
| Orchestrator.GetCount | civitAI_Model_downloader.py:324-330 | `summary_data.get(key, 0)`: the stored count, or 0 for a missing key |
| Orchestrator.CountsReport | civitAI_Model_downloader.py:324-331 | total, selected and skipped as the summary gives them, and failed as selected minus downloaded (line 416): skipped, failed and downloaded add up to the total, and nothing is skipped for `All` |
| Orchestrator.RoundTripLookups | civitAI_Model_downloader.py:324-330 | the lookups into the read-back dictionary give the total and each category's list length |
| Orchestrator.LedgerReport | civitAI_Model_downloader.py:322-331 | from the ledger it was written from, the report's total is the sum of the list lengths and its selected count is the chosen list's length |
| Orchestrator.LedgerFile | fetch_all_models.py:349 | the ledger's file name is the account name followed by `.txt` |
| Orchestrator.Lookup | civitAI_Model_downloader.py:82-92 | opening finds the file's contents, or `None` exactly when it is missing |
| Orchestrator.LedgerFileInjective | fetch_all_models.py:349 | different account names give different ledger files |
| Orchestrator.ProcessPages | fetch_all_models.py:421-424 | aggregating page after page keeps the five lists |
| Orchestrator.ProcessPagesKeepsInvariants | fetch_all_models.py:421-424 | the caps and the mirroring of `other_item_types` hold after any sequence of pages |
| Orchestrator.FetchAllModels | fetch_all_models.py:388-429 | a run that is not rejected ends with all five lists |
| Orchestrator.WriteLedger | fetch_all_models.py:346-374 | writing puts the summary text under the ledger name, and a rejected name writes nothing |
| Orchestrator.FetchAllModelsOutcome | fetch_all_models.py:399-429 | a run is rejected exactly when the account name is; otherwise the tally is within the caps, `other_item_types` mirrors Other, at most 1000 pages were fetched and the ledger is named after the sanitized name |
| Orchestrator.RenamedLedgerUnread | civitAI_Model_downloader.py:322-324 | when sanitizing changed the name and no ledger of the name as given was there before, the downloader finds no ledger and every count is 0 |
| Orchestrator.KeptNameLedgerRead | civitAI_Model_downloader.py:322-331 | when sanitizing keeps the name, the downloader reads back what was written and reports its counts |
| Orchestrator.RunFetchAllModels | fetch_all_models.py:388-429 | pagination, page-by-page aggregation and the summary text together give the specification's result |

## Left out

- Command-line parsing, the interactive prompts and `get_token_securely` are left out: they are user interaction. The download type comes in as a value, and the token as a parameter of `Urls.WithToken`.
- Logging, the lock-guarded logger and session singletons, `print` and the tqdm progress bars are left out: they are output and concurrency plumbing.
- The `ThreadPoolExecutor` fan-out and `future.result()` are left out: the model stops at the task list, in submission order.
- `download_model_files` is not modelled beyond:
  - its classifier, filter and token suffix;
  - its three calls to `sanitize_name` (civitAI_Model_downloader.py:190, 269 and 297), as `Paths.ItemFolderName`, `Paths.ModelFileName` and `Paths.ImageFileName`. None of them passes `output_dir` or `username`, so the truncation branch (civitAI_Model_downloader.py:117-120) is never reached from the downloader; it is modelled, and its lemmas hold, only for direct calls of `sanitize_name`.

  The rest of it is file I/O: the directory creation, description.html, triggerWords.txt, the details.txt and failure-log appends, and the image loop.
- HTTP, `response.json()`, streaming and the `time.sleep` delays are left out. Each is an abstract outcome:
  - a listing `Response` per URL;
  - an `Attempt` per download try.
- `urlparse` is not modelled: URLs arrive already parsed, and a parse failure is `None`.
- The regex engine is not modelled: the two substitutions are written out character by character.
- `write_summary`'s temporary file, `fsync`, `os.replace`, `realpath` containment check and `OSError` handling are left out: they are file-system and symlink semantics. Its effect is a map update, `Orchestrator.WriteLedger`.
- The `os.listdir` counts at civitAI_Model_downloader.py:411-414 are left out: they depend on the disk. `downloaded` is a parameter of `Orchestrator.CountsReport`.
- In `process_username`, neither the request and retry loop for listing pages nor the `exit()` when it runs out is modelled (civitAI_Model_downloader.py:351-385): the model starts from the pages' item lists. The same holds for the `not metadata and not items` stop.
- The JSON typing guards (`isinstance` on items, names and files) and the `ValueError`/`KeyError`/`TypeError` handlers of `process_items` are left out: items are typed records, so those branches cannot arise.
- Generator laziness in `paginate_api` is not modelled: the pages are collected in order, which is what `fetch_all_models` consumes.
- Files other than the ledger are not modelled (the error logs, the failed-downloads file) and neither are open errors other than a missing ledger.
- Characters outside ASCII are simplified:
  - `PyStr.Upper` maps only `a`-`z`, dotless i and long s;
  - `PyStr.IsAllDigits` accepts only ASCII digits.

  Both are exact for the ASCII names the scripts compare against, but full Unicode case mapping and Unicode digits are not modelled.
- `categorize_item` raises `AttributeError` on an explicit `"type": null` (fetch_all_models.py:143, called at :237). Neither of `process_items`'s handlers (:268-275) catches it, so in the source such an item ends `fetch_all_models` before `write_summary` (:427), and no ledger is written. The model gives such an item no type, and so the category Other. That aborted run is therefore outside `Orchestrator.FetchAllModelsOutcome`, which covers only the rejected-name and completed outcomes.
- The second `except` clause of `download_file_or_image` (civitAI_Model_downloader.py:169-180) is not modelled: the first one catches every `Exception`, so it can never run.
- `Retry.Download`: only the control flow of the retries is modelled. The failure-log messages and the 20/40-second timeouts are not.
- `Ledger.SummaryRoundTrip`: the round trip is proved under the hypothesis `ListingSafe`, that no detailed line holds ` - Count:`. A name or type with that text would be read as a count line.
- `Ledger.PlainNameIsListed` is only a sufficient condition for a safe listing line, not a characterisation.
- `Usernames.CutCanLeaveOnlyHyphens` is proved for a final lower-case letter only; other letters and digits behave the same, but are not stated.
- `PyStr.ParseInt`: its own contract only says that an accepted text holds a digit. The value it parses is stated by `PyStr.ParseIntOfLiteral` and `PyStr.ParseIntOfStripped`. `int()` also accepts non-ASCII Unicode decimal digits, which the model refuses.
- `Paths.SanitizeName`: its own contract states only the early return; the cleanliness and extension results are the lemmas (`Paths.SanitizeNameKeepsExtension`, `Paths.SanitizedStem`).

