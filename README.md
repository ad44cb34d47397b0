# csm — a verified model of the content storage manager

The library stores content (files) under an identifier (`CsmIdent`) and a name. An identifier is an ordered list of rows. Each row is a directory name, a string, a number or an md5 digest. A driver turns the rows into a list of sanitized directory names ("sharding"):

- a directory row gives one name;
- a string gives one name per byte, its decimal code;
- a number gives pieces of two digits;
- a digest gives pieces of four characters.

The filesystem driver keeps each file under that directory path below its resource path. It creates missing directories level by level. It writes and reads in chunks of `chainSize` bytes. After every chunk it reports progress (a `ChainElement` tracker) to an optional callback, and the callback may abort the transfer.

The stand-in `Hole` driver stores nothing. Every operation on it succeeds except on the name `error`.

`CsmService` resolves which driver an operation goes to. The driver is either given ready, or given as an array of parameters, or named in the service configuration. The service creates each driver once and keeps it in a registry. `CsmType` is a `type_subtype` content tag.

Files:

- `php.dfy` — the PHP built-ins the code relies on:
  - the decimal form of an integer, white space, leading digits and `octdec`;
  - `explode` and `implode`;
  - `str_split` into fixed-size groups.
- `numeric.dfy` — PHP 8's numbers in strings:
  - the numeric prefix of a string, with its fraction and exponent;
  - the `(int)` cast built on it, truncating toward zero and sticking at the 64-bit ends;
  - `is_numeric`, and the comparison of an integer with a numeral or with text.
- `parameters.dfy` — parameter values:
  - the truthiness and loose-comparison rules;
  - `array_merge`;
  - the strict/non-strict error policy (`Reply`: a value, `false`, or a thrown exception with its message);
  - the per-object parameter store.
- `chain_element.dfy` — the progress tracker.
- `csm_ident.dfy` — the identifier and its bounds check.
- `sharding.dfy` — the `Helper` trait: identifier to directory names, and names to path.
- `store.dfy` — the host filesystem as two maps and a set:
  - regular files (a map from path to content);
  - directories (a set of paths);
  - permission bits (a map from path to mode).
- `system.dfy` — the chunked I/O engine:
  - `Stream` is the reference definition of a transfer;
  - `SaveOutcome` and `ReadOutcome` are the reference definitions of saving and reading;
  - the loop methods are proved against them;
  - directory preparation, copy, delete and presence checks.
- `filesystem.dfy` — the filesystem driver's public operations (the `Main` trait) and its defaults.
- `hole.dfy` — the `Hole` driver.
- `service.dfy` — the service registry:
  - `LookupByName` and `LookupByParams` are the reference definitions;
  - the `CsmService` methods are proved against them.
- `csm_type.dfy`, `type_image.dfy` — content type tags.

Callbacks are `Listener` values holding a function from the tracker's snapshot to a verdict. `md5`/`serialize` (driver hashes, `addHash`) are function parameters; an array holding a callback cannot be serialized and makes the hash throw, as in PHP. PHP's last-error report, which ends every driver error message, is a `lastError` string parameter.

## Model

| member | source | states |
|---|---|---|
| Parameters.Params.constructor | src/Traits/Parameters.php:21-24 | the parameters are the class defaults overridden key by key by the given array; `getDefaultParams`/`getParams` read these back |
| Parameters.Params.GetParam | src/Traits/Parameters.php:46-49 | the stored value for a present key, null for an absent one |
| Parameters.Params.SetParam | src/Traits/Parameters.php:56-59 | exactly the named key changes, every other key reads as before |
| Parameters.GenerateError | src/Traits/Parameters.php:67-73 | thrown with the message exactly when strict, plain false otherwise |
| Parameters.Merge | src/Traits/Parameters.php:21-24 | `array_merge`: keys of both arrays, the second array's value winning on a shared key |
| Numeric.Saturate | src/CsmIdent.php:60-63 | a value in the 64-bit range is kept, one beyond it sticks at the nearer end |
| Numeric.Truncated | src/CsmIdent.php:60-63 | the numeral's exact value truncated toward zero: t*den <= value < (t+1)*den for a value that is not negative, the mirror image for a negative one |
| Numeric.IntOfString | src/CsmIdent.php:60-63 | PHP 8's `(int)` of a string: 0 without a leading number after white space, else the numeric prefix truncated toward zero and capped at the 64-bit ends |
| Numeric.UnsignedNumeral | src/CsmIdent.php:60-63 | a number is read exactly when the text starts with a digit, or with a point and a digit; it is never longer than the text |
| Numeric.NumericPrefix | src/CsmIdent.php:60-63 | a number is read exactly when the text starts with one after an optional sign |
| Numeric.IntegerNumeral | src/CsmIdent.php:60-63 | digits worth m followed by an exponent read as e give the value m·10^e |
| Numeric.DecimalNumeral | src/CsmIdent.php:60-63 | digits, a point and fraction digits worth m give m scaled down by the fraction digits and up by the exponent |
| Numeric.SignedNumeral | src/CsmIdent.php:60-63 | a sign before a number negates it for `-` and keeps it for `+` |
| Numeric.NumeralOfDecimalString | src/CsmIdent.php:85-99 | the decimal form of an integer reads back as that integer, in full |
| Numeric.IntOfDecimalString | src/CsmIdent.php:60-63 | casting the decimal form of an integer gives it back, capped at the 64-bit ends |
| Numeric.DecimalIsNumeric | src/CsmIdent.php:85-99 | the decimal form of an integer is a numeric string |
| Numeric.DecimalValue | src/CsmIdent.php:85-99 | the decimal form of an integer is numeric and its numeral is that integer, unscaled |
| Numeric.NumericOf | src/CsmIdent.php:85-99 | a string that is one unsigned number from first to last character is numeric, and that number is its prefix |
| Numeric.CompareToNumeral | src/CsmIdent.php:85-99 | negative exactly when the integer is below the numeral's exact value, positive exactly when above |
| Numeric.DigitsThenWords | src/CsmIdent.php:85-99 | digits, white space and then a word do not make a numeric string, so such a bound is compared as text |
| Numeric.CompareText | src/CsmIdent.php:85-99 | `strcmp`'s sign, zero exactly for equal texts |
| Numeric.CastThousand | src/CsmIdent.php:60-63 | "1e3" casts to 1000 |
| Numeric.CastFraction | src/CsmIdent.php:60-63 | "2.5e1" casts to 25 |
| Numeric.CastTruncates | src/CsmIdent.php:60-63 | "1.9" casts to 1 and "-1.9" to -1 |
| Numeric.CastPadded | src/CsmIdent.php:60-63 | " 12abc" casts to 12 |
| Numeric.CastSkipsSpace | src/CsmIdent.php:60-63 | a leading white-space character does not change the cast |
| Numeric.CastText | src/CsmIdent.php:60-63 | "abc" casts to 0 |
| Numeric.CastBareExponent | src/CsmIdent.php:60-63 | "7e" casts to 7: an exponent mark without digits is not read |
| Numeric.PointDigit | src/CsmIdent.php:60-63 | a point and one digit read as that digit in tenths |
| Numeric.CastBarePoint | src/CsmIdent.php:60-63 | ".5" casts to 0 |
| Numeric.IntCastSaturates | src/CsmIdent.php:60-63 | the decimal forms of PHP_INT_MAX+1 and PHP_INT_MIN-1 cast to PHP_INT_MAX and PHP_INT_MIN |
| Parameters.LooseCompare | src/CsmIdent.php:85-99 | PHP 8's `count <=> value`: -1, 0 or 1; an integer compares by difference, null as a boolean, an array is always greater |
| Parameters.LooseCompareDecimal | src/CsmIdent.php:85-99 | against the decimal form of an integer the loose comparison is the integer comparison |
| Parameters.LooseCompareInteger | src/CsmIdent.php:85-99 | against a numeric string holding an integer the comparison is by that integer |
| Parameters.LooseCompareNumeric | src/CsmIdent.php:85-99 | against a numeric string the comparison is by its exact value |
| Parameters.LooseCompareScaled | src/CsmIdent.php:85-99 | against a numeric string the comparison is the sign of count·den − num, the numeral as a fraction |
| Parameters.LooseCompareText | src/CsmIdent.php:85-99 | against any other string it is `strcmp` with the integer's decimal form |
| Parameters.LooseCompareFraction | src/CsmIdent.php:88 | 2 is below "2.5" and 3 above it |
| Parameters.LooseCompareWords | src/CsmIdent.php:93 | 5 is above "10 rows", which is compared as text |
| Containers.ChainElement.Start | src/Containers/ChainElement.php:33-40 | a tracker of the given size at 0 bytes and fraction 0, agreeing with `Progress` |
| Containers.ChainElement.Update | src/Containers/ChainElement.php:46-53 | sets the byte count, recomputes the fraction only for a positive size, keeps the size, returns the tracker itself, preserves agreement with `Progress` |
| Containers.ChainElement.ToArray | src/Containers/ChainElement.php:58-65 | the snapshot holds exactly size, bytes processed and fraction |
| Containers.ProgressEnds | src/Containers/ChainElement.php:46-53 | the fraction is 0 at 0 bytes and 1 at the full size |
| Ident.CsmIdent.constructor | src/CsmIdent.php:24-28 | an empty identifier whose parameters are the defaults overridden by the given ones |
| Ident.CsmIdent.AddTypeIdent | src/CsmIdent.php:139-143 | appends exactly one row at the end, returns the identifier itself |
| Ident.CsmIdent.AddResourceName | src/CsmIdent.php:42-45 | appends one directory row ('d') holding the name under PHP's `(string)` cast (`Parameters.StrOf`) |
| Ident.CsmIdent.AddString | src/CsmIdent.php:51-54 | appends one string row ('s') holding the text under PHP's `(string)` cast (`Parameters.StrOf`) |
| Ident.CsmIdent.AddNumeric | src/CsmIdent.php:60-63 | appends one numeric row ('n') holding the value under PHP's `(int)` cast (`Parameters.IntOf`, `Numeric.IntOfString`) |
| Ident.CsmIdent.AddHash | src/CsmIdent.php:65-72 | appends one hash row ('h') holding the md5 digest of the input's `(string)` cast, not the input |
| Ident.CsmIdent.Count | src/CsmIdent.php:121-124 | the number of rows, which is the length of `toArray` |
| Ident.Check | src/CsmIdent.php:83-100 | true exactly when neither `min > count` nor `max < count` holds under PHP 8's loose comparison; `min > count` gives the min message, otherwise `max < count` the max message, thrown when strict and false otherwise; never false-as-a-value |
| Ident.IntegerBounds | src/CsmIdent.php:85-99 | with integer bounds, or decimal strings of integers, the check passes exactly when min <= count <= max |
| Ident.FractionalMinimum | src/CsmIdent.php:88-92 | a minimum of "2.5" rejects 2 rows with the message "CSM Ident must have 2.5 or more rows" and accepts 3 |
| Ident.WordyMaximum | src/CsmIdent.php:93-97 | a maximum of "10 rows" is compared as text, so 5 rows are rejected (false when not strict) |
| Ident.CsmIdent.CheckIdent | src/CsmIdent.php:83-100 | the bounds check of the identifier's own row count under its own parameters, changing nothing |
| Ident.DefaultMessages | src/CsmIdent.php:88-97 | the default bounds print as "1" and "100" in the two messages |
| Ident.DefaultBounds | src/CsmIdent.php:155-159 | with the defaults 0 rows throws "CSM Ident must have 1 or more rows", 100 pass, 101 throw the max message, non-strict 0 rows give false |
| Sharding.CorrectName | src/Driver/Traits/Helper.php:115-118 | same length; each character kept when it is a word character, `_` otherwise |
| Sharding.CorrectNameIdempotent | src/Driver/Traits/Helper.php:115-118 | the result has word characters only, and sanitizing twice is sanitizing once |
| Sharding.CorrectNameKeepsSafe | src/Driver/Traits/Helper.php:115-118 | a name of word characters is left unchanged |
| Sharding.ElementDir | src/Driver/Traits/Helper.php:45-48 | a directory row gives the one sanitized name |
| Sharding.PrepareElementS | src/Driver/Traits/Helper.php:56-66 | the loop gives one name per byte, its decimal code, as `ElementS` defines |
| Sharding.PrepareElementN | src/Driver/Traits/Helper.php:74-88 | the loop taking a character and the next one gives the sanitized two-character groups from the left |
| Sharding.PrepareElementH | src/Driver/Traits/Helper.php:96-107 | the loop over `substr(id, i, 4)` gives the sanitized four-character groups from the left |
| Sharding.GetPathAsArray | src/Driver/Traits/Helper.php:20-37 | the loop over the rows gives `PathAsArray`, the rows' names in row order |
| Sharding.PathAsArrayAppend | src/Driver/Traits/Helper.php:20-37 | the names of two concatenated identifiers are the concatenated names |
| Sharding.ElementSCodes | src/Driver/Traits/Helper.php:56-66 | one name per character of a string row, the character's code in decimal, which `(int)` casts back to that code |
| Sharding.SafeGroup | src/Driver/Traits/Helper.php:74-107 | each group cut from a word-only text passes the name sanitizer unchanged |
| Sharding.SafeGroups | src/Driver/Traits/Helper.php:74-107 | cutting a word-only text into groups of two or four leaves each group unsanitized, and the groups put back together give the text |
| Sharding.NumericRoundTrip | src/Driver/Traits/Helper.php:74-88 | the names of a number that is not negative, put back together, are its decimal form; `(int)` casts that back to the number, capped at PHP_INT_MAX |
| Sharding.HashRoundTrip | src/Driver/Traits/Helper.php:96-107 | the names of a word-only digest put back together are the digest |
| Sharding.SegmentDirsCount | src/Driver/Traits/Helper.php:20-37 | one name for a directory, one per byte for a string, ceil(len/2) for a number, ceil(len/4) for a hash |
| Sharding.PathAsArraySafe | src/Driver/Traits/Helper.php:20-37 | every directory name of every identifier consists of word characters only, so none holds a `/` |
| Sharding.HashOfDigest | src/Driver/Traits/Helper.php:96-107 | a 32-character digest gives 8 names, name i being characters 4i..4i+4 |
| Sharding.NumericOfAvatarId | src/Driver/Traits/Helper.php:74-88 | the number 180532 gives the names 18, 05, 32 |
| Sharding.AvatarPath | examples/service1.php:34-43 | users/profile/180532 gives the directories users/profile/18/05/32 |
| Sharding.StringFanOut | src/Driver/Traits/Helper.php:56-66 | the string "AB" gives the names 65 and 66 |
| Sharding.FullPathSplits | src/Driver/Traits/Helper.php:156-159 | the full path is the start, a `/`, and the names joined by `/`; with no names it is the start and `/`; names without `/` split back out of the rest |
| Sharding.IdentPathSplits | src/Driver/Traits/Helper.php:156-159 | the directory of any identifier with names determines those names: splitting what follows the start gives them back |
| Sharding.ExtendIsFullPath | src/Driver/Traits/Helper.php:129-159 | appending "/name" level by level, as the slow branch of `prepareFullPath` does, ends at `getFullPath` |
| System.CallEvent | src/Driver/Filesystem/System.php:97-111 | with a falsy callback the transfer goes on; otherwise the callback's verdict on the snapshot |
| System.StreamDone | src/Driver/Filesystem/System.php:180-194 | at most one snapshot per piece, and the bytes moved are exactly the pieces moved so far |
| System.StreamEvents | src/Driver/Filesystem/System.php:180-194 | snapshot i shows the running total after piece i |
| System.StreamVerdict | src/Driver/Filesystem/System.php:180-194 | every snapshot but the last was accepted; success iff all pieces moved and all accepted; a failure ends with the refused one |
| System.NoListenerMovesAll | src/Driver/Filesystem/System.php:97-111 | without a callback the whole content moves, one snapshot per piece |
| System.ChunkedDone | src/Driver/Filesystem/System.php:161-194 | a transfer in k-byte chunks has moved a prefix of min(events*k, size) bytes, the whole content on success |
| System.ChunkedEvents | src/Driver/Filesystem/System.php:161-194 | snapshot i shows min((i+1)*k, size) bytes |
| System.StreamStop | src/Driver/Filesystem/System.php:180-194 | a callback accepting pieces 0..j-1 and refusing piece j stops the transfer after piece j, having moved pieces 0..j |
| System.ChunkAfter | src/Driver/Filesystem/System.php:183-191 | after piece i of a transfer in k-byte pieces, the bytes written are the first min((i+1)*k, size) of the content |
| System.ChunkedStop | src/Driver/Filesystem/System.php:161-194 | the same for k-byte chunks: j+1 snapshots, min((j+1)*k, size) bytes moved |
| System.SaveOutcome | src/Driver/Filesystem/System.php:53-68 | success keeps exactly the new content under the full name; failure removes that name; success reports 1 + number-of-chunks snapshots |
| System.ReadOutcome | src/Driver/Filesystem/System.php:78-91 | content only for a stored non-empty file, and then exactly its bytes; no snapshots iff the file is missing or empty |
| System.ReadWithoutListener | src/Driver/Filesystem/System.php:78-91 | without a read callback a stored non-empty file reads back whole, with 1 + number-of-chunks snapshots |
| System.SaveThenRead | src/Driver/Filesystem/System.php:53-91 | reading back a successful save returns the content with the same snapshots the save reported (same callback); saved empty content reads back as false |
| System.TryWriteResource | src/Driver/Filesystem/System.php:180-194 | the write loop's verdict, snapshots and written bytes are those of `Stream` over the chunks; directories and modes untouched |
| System.WriteContent | src/Driver/Filesystem/System.php:53-63 | agrees with `SaveOutcome` on verdict and snapshots; a success stores the content at the full path, a failure changes no other file; directories and modes unchanged |
| System.SaveFile | src/Driver/Filesystem/System.php:53-68 | agrees with `SaveOutcome` on verdict, snapshots and files; the stored file gets the octal mode; a failed save drops the mode of a file it removed; directories unchanged |
| System.ChunkStep | src/Driver/Filesystem/System.php:161-173 | a read at offset min(i*k, size) returns chunk i and moves the offset to that of chunk i+1, reaching the end exactly after the last chunk |
| System.TryReadResource | src/Driver/Filesystem/System.php:161-173 | the read loop's snapshots are those of `Stream` over the chunks; content only when all were accepted and the file is not empty |
| System.ReadFile | src/Driver/Filesystem/System.php:78-91 | agrees with `ReadOutcome` on content and snapshots, changing nothing on disk |
| System.PreCheckFullPath | src/Driver/Filesystem/System.php:34-42 | the full path iff it is a directory; thrown "<path> is not a directory" iff neither it nor the start is one; false otherwise |
| System.PrepareOneElementDirectory | src/Driver/Filesystem/System.php:19-26 | an existing directory is left alone; a missing one is created with the mode when its parent is a directory; a file in the way or a missing parent gives "Can not create directory <path>" |
| System.PrepareFullPath | src/Driver/Traits/Helper.php:129-147 | an existing full path is returned untouched; otherwise every level is created in turn with the octal mode; only prefixes of the path are created; no file changes; an error names the start or the first level that could not be created, and then the full path is no directory |
| System.CopyFile | src/Driver/Filesystem/System.php:123-129 | succeeds iff the source exists, is not the destination itself, and the destination can be created; then the destination (same name when `destName` is empty) holds the source's content; otherwise nothing changes |
| System.IsFilePresent | src/Driver/Filesystem/System.php:139-142 | true iff `path/name` is a regular file |
| System.DeleteFile | src/Driver/Filesystem/System.php:152-155 | succeeds iff the file existed; afterwards it is gone, with its mode |
| System.LongContentEvents | tests/Driver/FilesystemTest.php:152-190 | 40842 bytes in 8192-byte chunks report 8192, 16384, 24576, 32768, 40842; in 65536-byte chunks only 40842 |
| System.ThresholdAbort | tests/Driver/FilesystemTest.php:206-245 | a callback refusing past 60 % stops a 40842-byte transfer in 8192-byte chunks at 24576 bytes, after three snapshots |
| Filesystem.DefaultSettings | src/Driver/Filesystem.php:40-50 | directories and files get octal 775 (509), chunks of 65536, no callbacks, strict |
| Filesystem.Filesystem.constructor | src/Driver/Filesystem.php:40-50 | the driver's parameters are its defaults overridden by the given ones |
| Filesystem.Filesystem.Prepare | src/Driver/Traits/Main.php:28-32 | the directory names of the identifier; the prepared directory is the resource path joined with them; an existing one is reused; a preparation error leaves it no directory |
| Filesystem.Filesystem.Get | src/Driver/Traits/Main.php:26-43 | whenever the identifier's directory exists afterwards, whether it did before or was just created, agrees with `ReadOutcome`; a failed read gives "Can not read file …", thrown when strict and false otherwise; no directory afterwards means a thrown preparation error; no file changes |
| Filesystem.Filesystem.Set | src/Driver/Traits/Main.php:55-73 | whenever the identifier's directory exists afterwards, including a first save that creates it, agrees with `SaveOutcome` over the files before and the directories after; success leaves exactly the new content under the name; failure gives "Can not save file …"; no directory afterwards means a thrown preparation error and no file change |
| Filesystem.Filesystem.Delete | src/Driver/Traits/Main.php:84-102 | when the identifier's directory exists afterwards: the file is gone, and the result is true iff it existed, else the delete error (thrown when strict, false otherwise); when it does not: thrown, files unchanged |
| Filesystem.Filesystem.IsPresent | src/Driver/Traits/Main.php:112-121 | whether the file exists in the identifier's directory |
| Filesystem.Filesystem.GetPreparedUrl | src/Driver/Traits/Main.php:132-145 | the resource URL joined with the same names and the file name; false only in strict mode for a missing file |
| Filesystem.Filesystem.Copy | src/Driver/Traits/Main.php:158-179 | with both directories in place, succeeds iff the source file exists, is not the destination and the destination is no directory, and then copies its content under `destName` or the same name; otherwise "Can not copy file …" by the strict policy; any outcome but success leaves the files untouched |
| Hole.Hole.constructor | src/Driver/Hole.php:126-128 | the parameters are the strict default overridden by the given ones |
| Hole.Hole.Check | src/Driver/Hole.php:110-122 | true iff the name is not "error"; on "error" the operation's message, thrown when strict and false otherwise |
| Hole.Hole.Get | src/Driver/Hole.php:27-31 | the text "content" iff the name is not "error"; else "Can not read file" thrown or false |
| Hole.Hole.Set | src/Driver/Hole.php:43-46 | true iff the name is present; on "error" "Can not save file" by the strict policy |
| Hole.Hole.Delete | src/Driver/Hole.php:57-60 | true iff the name is present; on "error" "Can not delete file" by the strict policy |
| Hole.Hole.Copy | src/Driver/Hole.php:100-103 | true iff the name is present; on "error" "Can not copy file" by the strict policy |
| Hole.Hole.IsPresent | src/Driver/Hole.php:70-73 | every name but "error" is present |
| Hole.Hole.GetPreparedUrl | src/Driver/Hole.php:84-87 | "http://url" iff the name is present, plain false otherwise in either mode |
| Service.Instance | src/CsmService.php:212-215 | a driver's parameters are the keys of its class defaults and of the array it is built with, the array's value winning and the default kept for every other key |
| Service.ClassOf | src/CsmService.php:211-212 | a `type` value names the filesystem class iff it is that class or a string matching its name up to ASCII case and one leading `\`; likewise for the stand-in class; nothing else names a class |
| Service.ClassOfExamples | src/CsmService.php:211-212 | "\\csm\\driver\\hole" names the stand-in class; "Csm\\Driver\\Holes" names none |
| Service.MergeAllAsWritten | src/CsmService.php:212-215 | the merge with `drivers['all']` succeeds iff that entry is an array |
| Service.WithAll | src/CsmService.php:212-215 | the driver's own keys plus those of `all`, `all` winning; equal to the as-written merge wherever that succeeds |
| Service.Build | src/CsmService.php:211-215 | succeeds iff the type names a known class, giving an instance of it with the merged parameters; else the class-not-found error |
| Service.LookupByName | src/CsmService.php:160-217 | the registry only grows, by the looked-up name at most; registered drivers keep their entries; the instance counter moves by one exactly when a driver is added; a found driver is the one kept under the name |
| Service.LookupByParams | src/CsmService.php:176-236 | the same for a lookup by parameter hash |
| Service.LookupByNameShape | src/CsmService.php:160-217 | never false; a registered name is answered from the registry unchanged; a failure leaves the registry as it was; a success registers exactly one new instance of the entry's class under the name |
| Service.LookupByNameErrors | src/CsmService.php:199-210 | "Drivername … is not present" iff the entry is missing or null; "… has no driver type" iff it is set but has no type |
| Service.LookupByNameCached | src/CsmService.php:160-169 | a second lookup of a name gives the same instance and changes nothing |
| Service.LookupByParamsCached | src/CsmService.php:176-236 | likewise per parameter hash; the driver is kept under the hash; no type gives "Custom driver has no driver type in params" |
| Service.LookupBuilds | src/CsmService.php:199-217 | an unregistered name with a typed entry is built from that entry and registered |
| Service.DefaultLookup | src/CsmService.php:253-264 | with the defaults the default driver is a filesystem driver built from `type` alone |
| Service.AbsentDefaultLookup | tests/CsmServiceTest.php:34-44 | a default naming an absent driver fails with `Drivername "stub" is not present in CsmService params` |
| Service.UntypedDefaultLookup | tests/CsmServiceTest.php:47-62 | an entry `'stub' => ''` fails with `Drivername "stub" has no driver type in CsmService params` |
| Service.ExampleMergeAsWritten | examples/service1.php:11-19 | the example's wiring, which has no `all` entry, makes the merge as written fail |
| Service.ExampleTable | examples/service1.php:11-19 | the example's driver table is its one "main" entry, with no common parameters |
| Service.ExampleLookup | examples/service1.php:11-29 | with a missing `all` read as empty, the example's default driver is a filesystem driver built from its entry |
| Service.RegisteredDriverFound | tests/CsmServiceTest.php:154-160 | a ready driver registered under its hash is found by that hash as a name, creating nothing |
| Service.ParamsLookupExamples | tests/CsmServiceTest.php:144-167 | `['type' => Hole::class]` gives a new stand-in driver kept under its hash; `[]` fails with "Custom driver has no driver type in params" |
| Service.ArrayHash | src/CsmService.php:189-192 | the hash of an array `serialize` accepts; serialize's "Serialization of 'Closure' is not allowed" exactly when a callback occurs in it, at any depth |
| Service.ArrayHashExamples | src/CsmService.php:189-192 | the stand-in class alone hashes; a `readEvent` callback, or one inside a nested array, is refused |
| Service.CsmService.constructor | src/CsmService.php:29-37 | the parameters are the defaults overridden by the given ones; no drivers yet |
| Service.NewService | src/CsmService.php:29-37 | throws "defaultDriver parameter is not set for CsmService" iff the default driver name is blank; else a service with no drivers |
| Service.CsmService.GetDriverByName | src/CsmService.php:160-169 | agrees with `LookupByName` on the name, a blank name meaning the default driver |
| Service.CsmService.RegisterDriverByName | src/CsmService.php:199-217 | agrees with `LookupByName` for an unregistered name |
| Service.CsmService.GetDriverByParams | src/CsmService.php:176-192 | parameters holding a callback throw serialize's exception and leave the registry as it was; any others agree with `LookupByParams` under their hash |
| Service.CsmService.RegisterDriverByParams | src/CsmService.php:225-236 | agrees with `LookupByParams` for an unregistered hash, and keeps the driver under it |
| Service.CsmService.RegisterDriverByDriver | src/CsmService.php:242-246 | keeps the driver under the hash of its parameters, replacing any other there, and returns it; a driver whose parameters hold a callback is refused with serialize's exception and nothing is stored |
| Service.CsmService.GetDriver | src/CsmService.php:50-60 | a ready driver is registered and returned; an array, whether given as parameters or in the name position, goes to the by-parameters lookup; any other value to the by-name lookup; a ready driver or an array holding a callback throws serialize's exception with the registry unchanged |
| Types.WithType | src/CsmType.php:36-43 | the type becomes the text of the first argument; the subtype changes only for a non-blank second argument |
| Types.Text | src/CsmType.php:124-131 | the type, followed by `_` and the subtype exactly when the subtype is non-empty |
| Types.KeyedItems | src/CsmType.php:113-119 | the entries at keys 0 and 1 of an array, null where missing, as `isset($types[i])` reads them |
| Types.Parts | src/CsmType.php:94-107 | a list is taken as it is; an array with keys goes down the array path by its entries 0 and 1; any other value is cast to text and split on `_`, part i being the i-th piece as a string |
| Types.HydrateKeyedExamples | src/CsmType.php:94-119 | an empty array gives `any`, not the type "Array"; keys 0 and 1 give type and subtype; only key 1 gives `any` with that subtype |
| Types.Hydrated | src/CsmType.php:94-119 | a missing or blank first part gives `any`, else its text; a missing or blank second part keeps the subtype, else its text |
| Types.Fields | src/CsmType.php:136-139 | exactly the type and the subtype, null when unset |
| Types.TextSplits | src/CsmType.php:124-131 | the text of a plain tag splits on `_` into its fields |
| Types.TextRoundTrip | src/CsmType.php:85-131 | hydrating a new tag from the text of a plain tag restores it |
| Types.FieldsRoundTrip | src/CsmType.php:113-139 | hydrating a new tag from `toArray` restores any tag with a non-empty type and no empty subtype |
| Types.HydrateWithoutSeparator | src/CsmType.php:103-119 | a text without `_` sets only the type (`any` when empty) and keeps the subtype |
| Types.HydrateTextExamples | tests/CsmTypeTest.php:59-71 | null, "1" and "1_2" give any, 1 and 1 with subtype 2 |
| Types.HydrateListExamples | tests/CsmTypeTest.php:73-84 | [], [1] and [1, 2] give any, 1 and 1 with subtype 2 |
| Types.SetterExamples | tests/CsmTypeTest.php:10-31 | a later `setType` without a subtype keeps the subtype set before |
| Types.CreateExamples | tests/CsmTypeTest.php:34-56 | a new tag is `['any', null]` written "any"; `video` is written "video"; `img` with `jpg` is `['img', 'jpg']` written "img_jpg" |
| Types.KnownTypesRoundTrip | src/CsmType.php:157-159 | each listed type reads back from its own text |
| Types.CsmType.constructor | src/CsmType.php:26-29 | the fields `setType` gives on unset fields |
| Types.CsmType.SetType | src/CsmType.php:36-43 | the new fields are `WithType` of the old ones |
| Types.CsmType.SetSubType | src/CsmType.php:49-53 | the subtype becomes the text of the argument, even a blank one; the type stays |
| Types.CsmType.Hydrate | src/CsmType.php:94-97 | the new fields are `Hydrated` of the old ones, arrays going down the array path |
| Types.CsmType.HydrateString | src/CsmType.php:103-107 | the same for the text of a scalar, split on `_` |
| Types.CsmType.HydrateArray | src/CsmType.php:113-119 | the same for a list |
| Types.CsmType.ToString | src/CsmType.php:124-131 | the type, then more text exactly when there is a non-empty subtype; hydrating a new tag from the text of a plain tag gives the tag back |
| Types.CsmType.ToArray | src/CsmType.php:136-139 | two entries, the type and the subtype or null; hydrating a new tag from them gives the tag back unless the type or the subtype is empty |
| Types.CreateHydrate | src/CsmType.php:85-88 | a new object hydrated from the source |
| TypeImage.Create | src/Type/TypeImage.php:19-22 | the type is the first argument's text, the subtype set only for a non-blank second |
| TypeImage.CreateDefault | src/Type/TypeImage.php:19-22 | with default arguments the tag is `img` without subtype, written "img" |
| TypeImage.CreateImage | src/Type/TypeImage.php:28-31 | type `img`, subtype the argument's text unless blank |
| TypeImage.ListedText | src/Type/TypeImage.php:28-31 | the image tag of a non-blank subtype is written `img_<subtype>` |
| TypeImage.ImageText | src/Type/TypeImage.php:28-41 | each listed subtype gives `img_<subtype>` and reads back from it; `gif` gives "img_gif" |

## Left out

- Real file I/O. `fopen`, `fread`, `fwrite`, `fclose`, `is_dir`, `is_file`, `mkdir`, `chmod`, `unlink`, `copy`, `filesize` and `feof` act on the in-memory `Store.Disk`. A path is a plain string: no normalisation, no trailing-slash equivalence, no symbolic links. A directory read as a file is a missing file.
- `Parameters.StrOf` gives "" for a callback and "Array" for an array. PHP throws an `Error` when it casts a closure to a string, and it warns when it casts an array; neither is modelled, so `Ident.CsmIdent.AddResourceName`, `Ident.CsmIdent.AddString` and `Ident.CsmIdent.AddHash` (whose `md5` casts its argument) use those texts instead.
- `Service.Key` and `Service.CsmService.GetDriverByName` take a callback given as a driver name as the name "". PHP raises a `TypeError` for a closure used as an array offset (`isset($this->drivers[$driverName])`, src/CsmService.php:165); that error is not modelled.
- `feof` is taken as "offset has reached the size". PHP reports end of file only after a read hits it, so the extra empty chunk PHP may report when the size is a multiple of `chainSize` is not modelled. For the same reason `System.TryReadResource` gives false for an empty file, where PHP reads it once, reports one snapshot and returns ""; `readFile` (src/Driver/Filesystem/System.php:84) never passes it one.
- `clearFileCache` (src/Driver/Filesystem.php:23-28): PHP's stat cache does not exist in the model, so the call is dropped.
- `str_split('')` is taken as no pieces, so saving empty content stores an empty file. Before PHP 8.2 it gives one empty piece. An empty file always reads back as false (proved in `System.SaveThenRead`).
- The `completed` fraction is an exact rational number, not a float. `ChainElement::toString` and its float printing are not modelled.
- `CsmIdent::toString` (`json_encode` of `toArray`) is not modelled. `CsmIdent::create` is the constructor.
- `md5`, `serialize` and `error_get_last` are parameters. The md5 in `addHash` and the hash in `generateArrayHash` are unconstrained functions; only serialize's refusal of closures is modelled (`Service.ArrayHash`). The last-error report is the `lastError` string.
- Calling a non-callable truthy event value raises a PHP error. `System.CallEvent` lets such a transfer go on instead.
- `System.SaveOutcome` requires `chainSize` to cast to an integer of at least 1, and so do `System.ReadOutcome`, `System.TryWriteResource`, `System.WriteContent`, `System.SaveFile`, `System.TryReadResource`, `System.ReadFile`, `Filesystem.Filesystem.Get` and `Filesystem.Filesystem.Set` (listed one by one below). The code never checks the value (src/Driver/Filesystem.php:47 gives 65536). A `chainSize` below 1 makes `str_split` (src/Driver/Filesystem/System.php:183) and `fread` (src/Driver/Filesystem/System.php:166) raise a `ValueError` in PHP 8, and a non-numeric one a `TypeError`; those exceptions are not modelled.
- `System.ReadOutcome`: a `chainSize` below 1 (a `ValueError` in PHP 8; under PHP 7 `fread` returns false and the read loop never ends) is not modelled.
- `System.TryWriteResource`: a `chainSize` below 1 (a `ValueError` from `str_split` in PHP 8) is not modelled.
- `System.WriteContent`: the same `chainSize` error is not modelled.
- `System.SaveFile`: the same `chainSize` error is not modelled.
- `System.TryReadResource`: the same `chainSize` error is not modelled.
- `System.ReadFile`: the same `chainSize` error is not modelled.
- `Filesystem.Filesystem.Get`: the same `chainSize` error is not modelled.
- `Filesystem.Filesystem.Set`: the same `chainSize` error is not modelled.
- Strings are sequences of characters, each character standing for one byte. The model does no UTF-8 encoding: `ElementS("é")` gives the one name "233", where PHP, seeing the two UTF-8 bytes, gives "195" and "169". `strlen` is the character count.
- `Parameters.Merge` is `array_merge` on string keys. The renumbering of integer keys is not modelled; the parameter arrays of the code have string keys only.
- `Service.ClassOf`: autoloading, class aliases and classes other than the two drivers are not modelled. A `type` value that is neither a string nor a class raises a PHP `Error` about the class name, which the model reports with the class-not-found message.
- Numbers read out of strings are exact rationals. PHP reads them as doubles, so the rounding of long mantissas is not modelled, and neither is an exponent so large that the double is infinite ("1e400" casts to 0 in PHP; the model caps it at PHP_INT_MAX).
- The chunk size is `chainSize` under the `(int)` cast. PHP 8 passes the value to the integer parameters of `fread` and `str_split`. There a non-numeric string raises a `TypeError` (the requires above exclude it, since it casts to 0), a string with trailing text raises a warning, a fraction is deprecated, and a value beyond the 64-bit range raises a `TypeError` where the model caps it.
- `Service.LookupByName` and `Service.LookupByParams` build new drivers with the corrected merge of "## Findings". Where the code as written raises a `TypeError` because `drivers['all']` is missing (src/CsmService.php:212-215, 231-234), the lookups use no common parameters instead; `Service.ExampleMergeAsWritten` and `Service.MergeAllAsWritten` show the failure.
- Loose comparisons follow PHP 8 (`0 == ''` is false). The word-character class `\w` is ASCII letters, digits and `_`.
- `Service.Build`: in PHP, `new $classname` with an unknown class raises a PHP `Error`, not a `CsmException`. The model gives `Thrown` with that error's message. Drivers are tags (`Service.Driver`) holding their class and parameters, not driver objects.
- `Service.CsmService.GetDriverByName` requires a non-blank default driver name. With a blank default, PHP recurses forever. The constructor already refuses that case, so only `setParam` could reach it.
- The service's forwarding operations `get`, `set`, `delete`, `isPresent`, `getPreparedUrl` and `copy` (src/CsmService.php:73-153) are not modelled. Each is one call to the selected driver's operation, and those operations are modelled.
- `Hole.Hole`: its operations ignore the identifier, so the model omits it as an argument.
- `CsmType::getType` and `getSubType` are plain field reads (`Types.CsmType.State`).
- The `ident` service parameter is unused by the code.

## Findings

| source | as written | input that shows it | evidently intended | confidence | as-written member | corrected member |
|---|---|---|---|---|---|---|
| src/CsmService.php:212-215 | a new driver's parameters are `array_merge($entry, $this->params['drivers']['all'])` | the service parameters of examples/service1.php:11-19: a `drivers` array without `all`. `array_merge` of the service parameters is shallow, so the whole default `drivers` array, with its `all`, is replaced. `all` is then null, and the merge fails with a type error | a missing `all` means no common parameters, and the example's main driver is built from its own entry | not executed | Service.ExampleMergeAsWritten | Service.ExampleLookup |
| src/CsmService.php:231-234 | the same merge for drivers given by parameters | the same service parameters and any typed parameter array | the same | not executed | Service.MergeAllAsWritten | Service.WithAll |
