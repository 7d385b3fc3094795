# BuddyPress Message Attachment: the plugin core in Dafny

This project models the core of the `BP_Msgat_Plugin` class of the
BuddyPress Message Attachment plugin, which adds file attachments to
BuddyPress private messages. It covers four pieces:

- **File-type classifier.** `all_file_types` builds the table of file-type
  groups. The table is an ordered map from a group key to a label and a list
  of extensions. It is passed through the `bp_msgat_file_types` filter and
  memoised in a field. `get_file_type_group` scans that table in order and
  returns the key of the first group listing the extension, and `general`
  when none does.
- **Settings.** `setup_globals` merges the saved settings over the defaults
  with `wp_parse_args`. `option` lower-cases a key and looks it up, and
  returns `null` when it is absent.
- **Download handler.** `file_downloader` is a chain of six fail-closed checks:
  1. the route is the messages component's `attachment` action on a displayed user;
  2. the logged-in user is a recipient of the thread;
  3. the attachment's `_bp_message_id` meta is truthy;
  4. that message's thread id equals the route's;
  5. the post is of type `attachment`;
  6. the file exists.

  When all six pass, the handler sends status 200 and six headers, then
  streams the file.
- **PHP built-ins the core depends on.** `strtolower`, `absint`, integer
  rendering in string concatenation, `basename`, and string truthiness.

Files and modules:

- `php.dfy`, module `Php`: the PHP built-ins.
- `file_types.dfy`, module `FileTypes`: the group table, the first-match
  search as a function, and its properties.
- `options.dfy`, module `Options`: the defaults, the merge, the lookup.
- `downloader.dfy`, module `Downloader`: the handler as a decision function
  `Decide`, the imperative `FileDownloader` proved equal to it, and the
  access rules.
- `plugin.dfy`, module `Msgat`: class `Plugin`. Its `options` and
  `allFileTypes` fields are updated in place by `SetupGlobals` and
  `AllFileTypes`. `GetFileTypeGroup` scans the table with a loop proved
  against `Classify`.

The filter hook, the label translation, the options storage and every
WordPress/BuddyPress lookup are parameters:

- the filter is a `Table -> Table` function;
- the translation is a `string -> string` function;
- the saved settings are a `Saved` value;
- the lookups are the function fields of `Downloader.Host`.

The handler's response is a returned `Outcome` value: `NoOutput` tagged
with the check that failed, or `Stream(200, headers, path)`.

Where a caller's natural expectation and the code part ways, the model
follows the code:

- **Case of extensions.** One might expect `JPG` to be classified like
  `jpg`, as `images`. The code compares with `in_array`, exactly as given,
  so `JPG` is `general` (`FileTypes.DefaultClassificationIsCaseSensitive`).
- **Cache invalidation.** One might expect the table to follow a hook that
  changes later. The code keeps a non-empty memoised table for good and
  never runs the filter again (`Msgat.TableIsMemoised`). It recomputes only
  when the stored table is falsy (`Msgat.EmptyTableIsRecomputed`).
- **Route variables.** The route is meant to carry two variables, the
  attachment id and the thread id. The code does not count them: a missing
  one reads as `false`, which `absint` turns into 0, and extra ones are
  ignored (`Downloader.ActionVariable`).
- **Anonymous users.** A caller who is not logged in is meant to be refused.
  The code compares the logged-in id, which is 0 for nobody, with each
  recipient's `user_id`. So it refuses them only because no recipient has
  id 0. `Downloader.StreamIffAllChecksPass` states the rule as written.

## Model

| member | source | states |
|---|---|---|
| FileTypes.DefaultTable | includes/class-bp-msgat-plugin.php:250-271 | the unfiltered table has exactly five groups, keyed images, docs, archives, audio, video in that order; so no group is keyed `general` |
| FileTypes.FirstMatch | includes/class-bp-msgat-plugin.php:288-292 | a found position is in the table, lists the extension, and no earlier group lists it; no position is found only when no group lists it |
| FileTypes.Classify | includes/class-bp-msgat-plugin.php:284-296 | the group reported is `general` or the key of some group of the table; it is `general` whenever no group lists the extension |
| FileTypes.FirstMatchUnique | includes/class-bp-msgat-plugin.php:288-292 | any position that lists the extension with no earlier group listing it is the position found |
| FileTypes.ClassifyFirstMatchWins | includes/class-bp-msgat-plugin.php:288-292 | the key of the earliest group listing the extension is reported, whatever later groups hold |
| FileTypes.ClassifyGeneral | includes/class-bp-msgat-plugin.php:285-295 | `general` is reported exactly when no group matches, or when the first matching group is itself keyed `general` |
| FileTypes.LaterGroupsNotConsulted | includes/class-bp-msgat-plugin.php:288-292 | two tables that agree up to and including the first matching group classify the extension alike: groups after a match are never consulted |
| FileTypes.AppendedGroupIsObserved | includes/class-bp-msgat-plugin.php:248-292 | a filter that appends a group for an extension no earlier group lists makes that group's key the result |
| FileTypes.DefaultJpgIsImages | includes/class-bp-msgat-plugin.php:251-253 | with the unfiltered table, `jpg` is `images`: no earlier group lists it |
| FileTypes.DefaultPdfIsDocs | includes/class-bp-msgat-plugin.php:255-257 | with the unfiltered table, `pdf` is `docs`: no earlier group lists it |
| FileTypes.Default7zIsArchives | includes/class-bp-msgat-plugin.php:259-261 | with the unfiltered table, `7z` is `archives`: no earlier group lists it |
| FileTypes.DefaultMp3IsAudio | includes/class-bp-msgat-plugin.php:263-265 | with the unfiltered table, `mp3` is `audio`: no earlier group lists it |
| FileTypes.DefaultMp4IsVideo | includes/class-bp-msgat-plugin.php:267-269 | with the unfiltered table, `mp4` is `video`: no earlier group lists it |
| FileTypes.DefaultUnlistedIsGeneral | includes/class-bp-msgat-plugin.php:250-295 | with the unfiltered table, `exe` is `general` |
| FileTypes.DefaultClassificationIsCaseSensitive | includes/class-bp-msgat-plugin.php:289 | matching is exact: `JPG` is `general` with the unfiltered table |
| FileTypes.VectorHookObserved | includes/class-bp-msgat-plugin.php:248-292 | a hook adding `svg` in a new `vector` group after the defaults makes `svg` classify as `vector` |
| Options.Defaults | includes/class-bp-msgat-plugin.php:57-61 | the defaults are exactly `file-types` (png, jpg, jpeg, pdf, zip, rar), `max-size` 5 and `load-css` true |
| Options.SavedArgs | includes/class-bp-msgat-plugin.php:117-118 | nothing stored gives the empty argument array; a stored array is passed on as it is |
| Options.ParseArgs | includes/class-bp-msgat-plugin.php:120 | the merged key set is the union of both; every saved key keeps its saved value; every default key absent from the saved settings takes its default |
| Options.ParseArgsIdempotent | includes/class-bp-msgat-plugin.php:120 | merging the defaults into the merged settings again changes nothing |
| Options.ParseArgsOfCompleteSettings | includes/class-bp-msgat-plugin.php:120 | saved settings that name every default key come through the merge unchanged |
| Options.NothingStoredGivesDefaults | includes/class-bp-msgat-plugin.php:117-120 | with nothing stored, the settings are the defaults |
| Options.Lookup | includes/class-bp-msgat-plugin.php:231-239 | the value under the lower-cased key, `null` when that key is absent |
| Options.LookupIgnoresCase | includes/class-bp-msgat-plugin.php:232 | looking up a key and its lower-cased form give the same value |
| Options.UpperCaseKeysUnreachable | includes/class-bp-msgat-plugin.php:232-235 | a setting stored under a key with an upper-case letter is never returned: removing it changes no lookup |
| Php.Lower | includes/class-bp-msgat-plugin.php:232 | `strtolower` keeps the length and lowers each ASCII letter in place |
| Php.LowerIsLowered | includes/class-bp-msgat-plugin.php:232 | the result has no upper-case letter, and a string is its own lower-case form exactly when it has none |
| Php.LowerIdempotent | includes/class-bp-msgat-plugin.php:232 | lowering twice is lowering once |
| Php.IntVal | includes/class-bp-msgat-plugin.php:336-337 | the integer conversion under `absint` is negative only when the first non-blank character is `-` |
| Php.AbsInt | includes/class-bp-msgat-plugin.php:336-337 | `absint` of a route variable is its integer conversion or the negation of it, never negative |
| Php.AbsIntOfDigits | includes/class-bp-msgat-plugin.php:336-337 | a route variable made of decimal digits alone is the id those digits denote |
| Php.AbsIntOfNonNumeric | includes/class-bp-msgat-plugin.php:336-337 | a route variable in which no digit follows the leading blanks and an optional sign (empty, a word, a lone sign, a signed word) is id 0 |
| Php.NatToString | includes/class-bp-msgat-plugin.php:386 | the decimal rendering of the size is a non-empty run of digits with no leading zero, one digit long exactly for sizes below 10 |
| Php.AbsIntOfNatToString | includes/class-bp-msgat-plugin.php:386 | reading back the decimal rendering of a size gives the size |
| Php.Abs | includes/class-bp-msgat-plugin.php:367 | `absint` of an integer thread id is that id or its negation, and never negative |
| Php.Basename | includes/class-bp-msgat-plugin.php:378 | the download name contains no `/` |
| Php.BasenameOfJoin | includes/class-bp-msgat-plugin.php:378 | the base name of `dir/name` is `name` for any slash-free non-empty `name` |
| Php.Truthy | includes/class-bp-msgat-plugin.php:363 | a message meta value that fails the `! $bp_message_id` test converts to id 0, and every value of two or more characters passes |
| Downloader.ActionVariable | includes/class-bp-msgat-plugin.php:336-337 | a present route variable is read as it is; a missing one converts to id 0 |
| Downloader.RouteMatches | includes/class-bp-msgat-plugin.php:335 | the route check passes only for the messages component's `attachment` action on a displayed member profile |
| Downloader.IsParticipant | includes/class-bp-msgat-plugin.php:349-359 | the participant check passes exactly when some recipient of the requested thread has the logged-in user's id |
| Downloader.HasLinkedMessage | includes/class-bp-msgat-plugin.php:361-365 | a failing message-meta check means a meta value that names no message id; any value of two or more characters passes |
| Downloader.InRequestedThread | includes/class-bp-msgat-plugin.php:366-369 | the thread check passes exactly when the message's thread id is the requested id or its negation, since `absint` is applied to it |
| Downloader.IsAttachmentPost | includes/class-bp-msgat-plugin.php:371-374 | the type check passes exactly when the post named by the first route variable is of type `attachment`; a missing post never passes |
| Downloader.FilePresent | includes/class-bp-msgat-plugin.php:377-381 | the file check passes exactly when the file stored for the attachment named by the first route variable exists |
| Downloader.DownloadHeaders | includes/class-bp-msgat-plugin.php:383-388 | six headers are sent, and the Content-Length value reads back as the file size |
| Downloader.DownloadHeadersInOrder | includes/class-bp-msgat-plugin.php:383-388 | the headers are Cache-Control, Pragma, Content-Description, Content-Length, Content-Disposition with the file name, and Content-Type with the MIME type, in that order |
| Downloader.Decide | includes/class-bp-msgat-plugin.php:334-394 | a request that is answered at all gets status 200 and the stored file of the requested attachment, and that file exists |
| Downloader.FileDownloader | includes/class-bp-msgat-plugin.php:334-394 | the handler, with its recipient scan that stops at the first match and its early returns, produces exactly the outcome `Decide` defines |
| Downloader.StreamIffAllChecksPass | includes/class-bp-msgat-plugin.php:335-392 | a file is streamed if and only if all six checks pass |
| Downloader.AllChecksPassBeforeStream | includes/class-bp-msgat-plugin.php:335-392 | whenever a file is streamed, each single check passed |
| Downloader.NoOutputNamesFirstFailedCheck | includes/class-bp-msgat-plugin.php:335-392 | the request ends with no output tagged with a check if and only if that check fails and every earlier check passes |
| Downloader.FirstFailedCheckIsReported | includes/class-bp-msgat-plugin.php:335-392 | when a check fails after all earlier ones passed, the outcome is no output tagged with that check |
| Downloader.StreamedResponse | includes/class-bp-msgat-plugin.php:375-391 | when all six checks pass, the response is streamed. It has status 200 and carries the existing file stored for the requested attachment. It has six headers in the order Cache-Control, Pragma, Content-Description, Content-Length, Content-Disposition, Content-Type. The length reads back as the file size, the download name is the path's slash-free base name, and the type is the stored MIME type |
| Downloader.ChecksPassedStreams | includes/class-bp-msgat-plugin.php:335-391 | when all six checks pass, the outcome is status 200 with the download headers built from the file size, the path's base name and the stored MIME type, streaming the stored path |
| Downloader.OutsiderGetsNothing | includes/class-bp-msgat-plugin.php:349-359 | with recipients 1 and 2, user 3 gets no output, failing the participant check |
| Downloader.OtherThreadGetsNothing | includes/class-bp-msgat-plugin.php:361-369 | a recipient asking for an attachment linked to a message of another thread gets no output, failing the thread check |
| Downloader.ParticipantGetsFile | includes/class-bp-msgat-plugin.php:371-391 | a recipient asking for a correctly linked 1024-byte PDF gets status 200 with `Content-Length: 1024` and `Content-Type: application/pdf` |
| Downloader.PdfHeaders | includes/class-bp-msgat-plugin.php:386-388 | for a 1024-byte PDF the length header is `1024` and the type header `application/pdf` |
| Downloader.Render1024 | includes/class-bp-msgat-plugin.php:386 | the size 1024 is rendered `1024` |
| Downloader.MissingFileGetsNothing | includes/class-bp-msgat-plugin.php:377-381 | when every check but the last passes and the file is gone, there is no output, tagged as a missing file |
| Msgat.Plugin.constructor | includes/class-bp-msgat-plugin.php:69-83 | a new plugin object has no settings and no memoised table |
| Msgat.Plugin.SetupGlobals | includes/class-bp-msgat-plugin.php:111-121 | the settings become the saved ones merged over the defaults: saved values kept, missing keys from the defaults |
| Msgat.Plugin.Option | includes/class-bp-msgat-plugin.php:231-239 | the lookup of the key in the settings, the same as the lookup of its lower-cased form |
| Msgat.Plugin.AllFileTypes | includes/class-bp-msgat-plugin.php:246-276 | a non-empty memoised table is returned unchanged; otherwise the filtered default table is stored and returned |
| Msgat.Plugin.GetFileTypeGroup | includes/class-bp-msgat-plugin.php:284-296 | the loop's result is the first-match classification of the table now memoised, which is updated as `AllFileTypes` says |
| Msgat.TableIsMemoised | includes/class-bp-msgat-plugin.php:246-276 | once a call has stored a non-empty table, the next call returns the very same table whatever the filter gives |
| Msgat.EmptyTableIsRecomputed | includes/class-bp-msgat-plugin.php:247-272 | a filter that yields the empty table leaves nothing memoised, so the next call runs the filter again |

## Left out

- Bootstrap glue is not modelled: the `instance` singleton, `setup_actions` hook registration, `do_includes`, `load_admin`, `load_main` and `bp_init`. It wires the plugin into WordPress and decides nothing about its data.
- `setup_textdomain` and `admin_notice_messages_dependency` are not modelled: they are localisation and admin HTML output.
- `is_network_activated` and the `get_option`/`get_site_option`/`maybe_unserialize` storage reads are not modelled. Their result is the `Saved` input.
- `wp_parse_args` on a saved value that is a string (query-string parsing) or an object is not modelled. Only "nothing stored" and a stored array are.
- Options.ParseArgs: integer-like setting keys are not modelled. `array_merge` renumbers them from 0, so a saved `7 => 'x'` would be unreachable under `'7'`, but the model keeps every key as it is. The plugin saves only named keys (`file-types`, `max-size`, `load-css`).
- Key order after the merge is not kept: settings are a Dafny `map`, and the plugin only ever reads them by key.
- The response I/O is not performed: `status_header`, `header`, `ob_clean`, `readfile` and `die`. The `Stream` outcome names the status, the headers and the path whose bytes make the body. `die` makes it the last thing the request does.
- The WordPress/BuddyPress lookups are the fields of `Downloader.Host`: `BP_Messages_Thread_Template`, `BP_Messages_Message`, `get_post_meta`, `get_post`, `get_attached_file`, `file_exists` and `filesize`. Their `update_meta_cache` hint is left out because it only affects performance.
- A missing post is `postType` "". The code makes a property access on `null` there, which also fails the type check.
- The `! $c_thread_template` test has no branch in the model. `new` always yields an object, so that test never stops the request.
- Recipient user ids are integers compared with `===`. The host's own conversion of database rows is not modelled.
- `apply_filters` is a `Table -> Table` parameter. A filter that returns something other than a list of groups with extension lists is not modelled. Examples: a non-array falsy value, a group without `extensions`, integer-like group keys.
- Loose `in_array` comparison is not modelled. PHP compares two numeric strings numerically (`"10"` equals `"1e1"`). The model compares extensions exactly, which agrees for every extension of the default table.
- An extension that is not a string is not modelled.
- The `__()` translations are the opaque `translate` parameter.
- Php.AbsInt: does not model exponent notation (`"1e3"` converts to 1000 in PHP) or integers beyond `PHP_INT_MAX`. It reads white space, a sign and the leading digits only.
- Php.Lower: lowers ASCII letters only, as `strtolower` does from PHP 8.2 on. The locale-dependent behaviour of earlier versions is not modelled.
- Php.Basename: models POSIX `/` separators only. The backslash separators of Windows and multibyte locale handling are not modelled.
