# nats-jwt-cpp, verified

A Dafny model of the parts of the NATS JWT library for C++ that decide what a token means: how its
bytes are spelled and hashed, how subjects are matched and renamed, how claims travel to their JSON
form and back, how a token is authenticated, migrated and dispatched, and when a chain of tokens is
trusted. `dafny verify dfyconfig.toml` checks everything.

## How it is built

Code that loops or updates state is a method or a class here, proved equal to a specification
function; what the library promises is then proved about that function. The modules follow the
sources:

- **Codecs and hashing** (src/jwt_utils.cpp, src/base64url.cpp). `Radix` states the regrouping of
  RFC 4648 on bit strings, with no program in sight; `Base32` and `Base64Url` prove the loops with
  their machine words against it. `Sha2` is one engine for SHA-256 and SHA-512/256, generic in the
  word operations; `Sha2Variants` supplies the 32- and 64-bit words and the constants, which are
  checked against the roots of primes that FIPS 180-4 derives them from. `Sha2Bits` says what the
  word operations do to single bits, and `KnownAnswers` carries the block of "abc" through every round
  of both variants to its two digests (a table of literals with one small lemma for each
  few rounds). `Bits` holds the machine operations: `<<` on 32 bits loses what it shifts out, `|` and
  `&` work bit by bit.
- **Subjects** (src/subject_utils.hpp, `cleanSubject`, the overlap checks of
  src/account_claims.cpp). `Tokens`, `Subjects`, `Containment`, `Renaming` and `Overlaps` prove the
  character-scanning code against token lists, and containment against the set of literal subjects a
  pattern matches.
- **Wire form** (src/account_claims.cpp, src/scope_serialization.hpp, src/user_claims.cpp). JSON is
  a datatype with objects as maps; an int is any integer, a float is only a float. `ScopeWire`,
  `AccountParts`, `AccountWire` and `UserWire` say what is written and read; `Writing` writes and
  reads member by member and item by item as the library does. `Ordering` is `std::string` order and
  `std::stable_sort`.
- **Tokens** (src/jwt_utils.cpp, src/jwt.cpp, src/generic_claims.cpp). `Tokenization` splits, signs
  and assembles, `Envelopes` authenticates and migrates, `Dispatch` is `decode` and `verify`.
- **Chains** (src/validation.cpp) in `Chain`, and **account state** and mapping weights
  (src/account_claims.cpp) in `AccountState` and `Weights`.
- **Claims** as a whole (src/account_claims.cpp, src/user_claims.cpp): `Claims` stamps, checks, encodes
  and signs an account or a user and decodes it again; `ExportChecks` and `Activations` hold the checks
  of an export and the hash id.

JSON text, key formats and Ed25519 belong to other libraries. They are a record of functions that
every theorem quantifies over (`Tokenization.World`): parse and dump a JSON text, say whether a key is
valid and of what kind, say whether a signature verifies. Where a theorem needs more of them it says
so: a signature that verifies is not empty, as nkeys checks its length, and a JSON text reads back as
what it was written from. `Chain.Checks` holds what a chain asks about single tokens, as functions of
the token, and the moment of the checks; `DecodingIsAuthentic` ties its decoding to the model's.

## What is not as one would expect

Each of these has a lemma with the concrete input or the exact condition.

- `subjectIsContainedIn("a.>", "a.*")` is true although `a.>` matches subjects that `a.*` does not;
  equal token counts with `>` against `*` are the only such case (`CornerExactly`), and transitivity
  fails there too (`NotTransitive`).
- A renaming subject is accepted by the number of its references, not by what they name: `$0` counts,
  and `$1.$1` is accepted for `*.*`. It refers to existing wildcards exactly when none is `$0`, and to
  each exactly once when they are distinct as well and no `*` stands beside them
  (`ReferencesNameExactly`, `EachOnceExactly`).
- Overlapping imports are found by containment, so subjects that cross, each wider than the other
  somewhere, pass: `a.*` and `*.b` share `a.b` (`SharedUnreported`). All others that share a literal
  subject are reported (`OverlapExactly`, `ReportedExactly`).
- The default weight total is a `uint32` tested only at the end: 42949672 destinations are safe, one
  more of full weight passes (`ShortListExactly`, `WrappedTotalAccepted`).
- The SHA-512/256 length field is written on eight of its sixteen bytes and the bit length wraps in
  64 bits, so the padding is that of FIPS 180-4 for messages below 2^64 bits and for no longer ones
  (`TailIsPaddingExactly`); a SHA-256 message has no more by its standard.
- A scope-template limit of 0 is left out and reads as -1, and a scoped key listed twice comes back
  once. Flat JetStream limits next to tiers are zeroed on reading, and an export whose sampling rate
  is no percentage cannot be read; the encoder refuses both, so they are facts about foreign tokens,
  and every account it lets through decodes (`AcceptableRoundTrip`).
- A foreign token need not be sorted: the first time a decoded account is encoded it may change, from
  then on it does not (`DecodedUnchangedExactly`, `DecodedRoundTrip`, `UnsortedExports`).
- A payload with `nats.version` 1 and no top-level `type` fails with an exception of the JSON
  library, not one of this one (`AbsentTypeExactly`). With an *empty* top-level `type` it is migrated
  to `nats.type` "", while `decode` dispatches on the old `nats.type`: the one case in which a
  verified token is refused for a type mismatch (`MismatchExactly`, `DisplacedToken`).
- Generic claims are verified by the rule of the header's algorithm and all others by the version of
  the payload, so `decode` may return generic claims for a token that `verify` refuses
  (`GenericVerifiedExactly`).

## Model

| member | source | states |
|---|---|---|
| `Sha2.FillSchedule` | src/jwt_utils.cpp:52-61 | the in-place schedule loops fill entry t with the recursive message schedule, for every t |
| `Sha2.RunRounds` | src/jwt_utils.cpp:62-73 | the 64 or 80 in-place rounds give the working variables of the recursive round function |
| `Sha2.Compress` | src/jwt_utils.cpp:51-76 | one call updates `h[8]` to the next hash value of FIPS 180-4 sections 6.2.2 and 6.4.2 |
| `Sha2.HashWholeBlocks` | src/jwt_utils.cpp:85-87 | the streaming loop stops at the last whole block and has folded the compression over all before it |
| `Sha2.BuildTail` | src/jwt_utils.cpp:89-96 | the block buffer holds the rest of the message and its tail, in one block or two, every index in bounds |
| `Sha2.FipsRecurrence` | src/jwt_utils.cpp:57-61 | the schedule satisfies the recurrence as FIPS 180-4 writes it, in its own order of summands |
| `Sha2.TailCompletes` | src/jwt_utils.cpp:92-96 | the zero bytes of the tail are the smallest number that completes a block |
| `Sha2.TailIsPaddingExactly` | src/jwt_utils.cpp:89-96 | the tail is the padding of FIPS 180-4 sections 5.1.1 and 5.1.2 if and only if the length field has eight bytes or the message is shorter than 2^64 bits |
| `Sha2.TailLength` | src/jwt_utils.cpp:93 | one block exactly when rest, 0x80 and length field fit into one |
| `Sha2.PaddingUnique` | src/jwt_utils.cpp:89-96 | a message length has only one FIPS padding |
| `Sha2.HashNext` | src/jwt_utils.cpp:85-87 | after any whole blocks, one more block is compressed from the hash value so far |
| `Sha2.RoundsUndone` | src/jwt_utils.cpp:62-73 | the rounds are a permutation of the eight working variables for every block: run backwards they give the start |
| `Sha2.CompressUndone` | src/jwt_utils.cpp:74-75 | for every previous hash value and block: the result minus the previous value, all rounds run backwards, is the previous value |
| `Sha2.HashIsFips` | src/jwt_utils.cpp:79-105 | below 2^64 bits the hash value is the fold of the compression function over the blocks of the message with any FIPS padding |
| `Sha2.Digest` | src/jwt_utils.cpp:79-105 | streaming loop, tail and output together give the digest of the message |
| `Sha2Variants.LoadUnrolled` | src/jwt_utils.cpp:125-128 | the unrolled big-endian load of SHA-256 is the byte-wise one |
| `Sha2Variants.AddLaws64` | src/jwt_utils.cpp:60 | 64-bit addition commutes and associates, so the order of summands in the schedule does not matter |
| `Sha2Variants.AddLaws32` | src/jwt_utils.cpp:132 | the same for 32 bits |
| `Sha2Variants.CubeRoots0` | src/jwt_utils.cpp:24-26 | the first eight SHA-512 round constants are the fractional bits of the cube roots of the first eight primes |
| `Sha2Variants.CubeRoots9` | src/jwt_utils.cpp:43-45 | the last eight are those of the primes 367 to 409 (CubeRoots1 to CubeRoots8 cover the rounds between) |
| `Sha2Variants.SquareRoots` | src/jwt_utils.cpp:151-152 | the initial hash value of SHA-256 is the fractional bits of the square roots of the first eight primes |
| `Sha2Variants.UpperHalves` | src/jwt_utils.cpp:111-120 | the SHA-256 round constants are the upper halves of those of SHA-512 |
| `Sha2Variants.SubLaws64` | src/jwt_utils.cpp:60 | subtraction modulo 2^64 undoes the addition, so SHA-512/256 compression can be run backwards |
| `Sha2Variants.SubLaws32` | src/jwt_utils.cpp:132 | the same modulo 2^32 for SHA-256 |
| `Sha2Bits.BigSigma0Bits64` | src/jwt_utils.cpp:68 | bit i of the result is the sum of bits i+28, i+34 and i+39 of the word, positions modulo 64 |
| `Sha2Bits.BigSigma1Bits64` | src/jwt_utils.cpp:65 | bits i+14, i+18 and i+41 |
| `Sha2Bits.SmallSigma0Bits64` | src/jwt_utils.cpp:58 | bits i+1 and i+8 modulo 64, and bit i+7 where there is one |
| `Sha2Bits.SmallSigma1Bits64` | src/jwt_utils.cpp:59 | bits i+19 and i+61 modulo 64, and bit i+6 where there is one |
| `Sha2Bits.ChooseBits64` | src/jwt_utils.cpp:66 | each bit of e chooses between those of f and g |
| `Sha2Bits.MajorityBits64` | src/jwt_utils.cpp:69 | each bit is that of at least two of the three words |
| `Sha2Bits.BigEndian64` | src/jwt_utils.cpp:101-103 | the octets of a word are its bytes, the most significant first |
| `Sha2Bits.BigSigma0Bits32` | src/jwt_utils.cpp:139 | bits i+2, i+13 and i+22 modulo 32 |
| `Sha2Bits.BigSigma1Bits32` | src/jwt_utils.cpp:136 | bits i+6, i+11 and i+25 modulo 32 |
| `Sha2Bits.SmallSigma0Bits32` | src/jwt_utils.cpp:130 | bits i+7 and i+18 modulo 32, and bit i+3 where there is one |
| `Sha2Bits.SmallSigma1Bits32` | src/jwt_utils.cpp:131 | bits i+17 and i+19 modulo 32, and bit i+10 where there is one |
| `Sha2Bits.ChooseBits32` | src/jwt_utils.cpp:137 | each bit of e chooses between those of f and g |
| `Sha2Bits.MajorityBits32` | src/jwt_utils.cpp:140 | each bit is that of at least two of the three words |
| `Sha2Bits.BigEndian32` | src/jwt_utils.cpp:169 | the octets of a word are its bytes, the most significant first |
| `KnownAnswers.KnownWords64` | src/jwt_utils.cpp:52-61 | the 80 schedule words of the padded block of "abc", word by word |
| `KnownAnswers.KnownHash64` | src/jwt_utils.cpp:79-105 | the hash value of "abc" under SHA-512/256, through 80 literal rounds |
| `KnownAnswers.KnownDigest64` | src/jwt_utils.cpp:99-104 | its digest, 53048e26 81941ef9 and so on, byte by byte |
| `KnownAnswers.KnownHash32` | src/jwt_utils.cpp:149-171 | the hash value of "abc" under SHA-256, through 64 literal rounds |
| `KnownAnswers.KnownDigest32` | src/jwt_utils.cpp:167-169 | its digest, ba7816bf 8f01cfea and so on, byte by byte |
| `KnownAnswers.KnownJti` | src/jwt_utils.cpp:205-225 | the identifier of a claim whose text is "abc" begins with KMCI4JUB |
| `Sha2Variants.ComputeJti` | src/jwt_utils.cpp:205-225 | the loops over the digest give the identifier, 52 characters; JtiAt and KnownJti say which |
| `Sha2Variants.JtiAt` | src/jwt_utils.cpp:205-225 | symbol k of the identifier is the base32 symbol of bits 5k to 5k+4 of the SHA-512/256 digest |
| `Activations.HashID` | src/activation_claims.cpp:63-71 | fails if and only if issuer, subject or import subject is missing; else the padded base32 text, 56 characters, of the SHA-256 digest of the base text |
| `Activations.BaseTextTokens` | src/activation_claims.cpp:67-68 | the tokens of the base text are those of the issuer, of the subject, and of the import subject before its first `*` or `>`, or `_` if there are none |
| `Activations.CleanedBefore` | src/activation_claims.cpp:67-68 | cleaning the import subject beforehand gives the same base text, so the same id |
| `Base32.PushPending` | src/jwt_utils.cpp:178-181 | pushing a byte into the wrapping 32-bit buffer keeps the pending bits as its low ones, whatever was shifted out |
| `Base32.PeekPending` | src/jwt_utils.cpp:181 | taking five bits gives the first five pending ones and leaves the others pending |
| `Base32.AlphabetAt` | src/jwt_utils.cpp:174 | the alphabet is A to Z for 0 to 25 and 2 to 7 for 26 to 31 |
| `Base32.SpelledAt` | src/jwt_utils.cpp:173-186 | symbol k stands for bits 5k to 5k+4 of the bytes read from left to right, zero behind their end: table 3 of RFC 4648 |
| `Base32.EncodeWith` | src/jwt_utils.cpp:213-224 | the bit-buffer loop emits the big-endian 5-bit regrouping of any byte string (RFC 4648 section 6) |
| `Base32.StdPadded` | src/jwt_utils.cpp:173-186 | the padded form is that text followed by the fewest `=` that make the length a multiple of eight |
| `Base32.SpelledShape` | src/jwt_utils.cpp:205-225 | ceil(8n/5) symbols of the alphabet; 52 and 56 for 32 bytes |
| `Base32.SpelledInjective` | src/jwt_utils.cpp:205-225 | different bytes have different texts |
| `Radix.DecodeEncode` | src/base64url.cpp:32-138 | regrouping bytes into w-bit digits and back is the identity, for every width up to 8 |
| `Radix.EncodeDecode` | src/base64url.cpp:32-138 | regrouping digits into bytes and back clears exactly the left-over bits of the last digit |
| `Radix.EncodeBit` | src/base64url.cpp:43-69 | bit j of digit k is bit wk+j of the bytes, for every width w |
| `Radix.DecodeBit` | src/base64url.cpp:90-135 | as many whole bytes as the bits make; bit j of digit i is bit wi+j of them |
| `Base64Url.CreateDecodeLookup` | src/base64url.cpp:14-27 | the table gives each symbol its index and every other byte 0xFF |
| `Base64Url.ValueInverse` | src/base64url.cpp:14-27 | the table inverts the alphabet |
| `Base64Url.ValueExactly` | src/base64url.cpp:14-27 | a character has value v if and only if it is the symbol of v in table 2 of RFC 4648: A-Z, a-z, 0-9, `-` at 62, `_` at 63; and 0xFF if it is none |
| `Base64Url.SpelledAt` | src/base64url.cpp:32-73 | symbol k stands for bits 6k to 6k+5 of the bytes read from left to right |
| `Base64Url.BytesAt` | src/base64url.cpp:75-138 | n characters decode to 6n/8 bytes; bit j of character i is bit 6i+j of them |
| `Base64Url.DecodesExactly` | src/base64url.cpp:75-138 | a text decodes if and only if all its characters are symbols and its length is not 1 modulo 4 |
| `Base64Url.MachineForms` | src/base64url.cpp:43-69 | the encoder's shifts, ors and masks on `uint32` never wrap: they are sextets of the three bytes' number |
| `Base64Url.DecoderMachineForms` | src/base64url.cpp:96-133 | the same for the decoder |
| `Base64Url.EncodeText` | src/base64url.cpp:32-73 | the groups-of-three loop and its remainder spell the RFC 4648 section 5 text |
| `Base64Url.DecodeText` | src/base64url.cpp:75-138 | succeeds exactly on alphabet texts whose length is not 1 modulo 4, and gives the whole bytes among the digits' bits |
| `Base64Url.RoundTrip` | src/base64url.cpp:32-138 | decoding undoes encoding, for every byte string |
| `Base64Url.SpelledShape` | src/base64url.cpp:32-73 | ceil(4n/3) characters, no `.` and no `=` |
| `Base64Url.ReEncode` | src/base64url.cpp:75-138 | encoding what a text decodes to gives the text back with the unused bits of its last character cleared |
| `Base64Url.CanonicalExactly` | src/base64url.cpp:75-138 | and gives the text itself if and only if those bits are zero (RFC 4648 section 3.5) |
| `Base64Url.SameBytesExactly` | src/base64url.cpp:75-138 | two texts decode to the same bytes if and only if they differ at most in unused bits; decoding is injective on canonical texts |
| `Tokens.SplitOn` | src/subject_utils.hpp:12-22 | the find loop yields the token list |
| `Tokens.JoinSplit` | src/subject_utils.hpp:12-22 | joining the tokens gives the text back, and no token holds a separator |
| `Tokens.SplitJoin` | src/subject_utils.hpp:12-22 | splitting a join of separator-free tokens gives them back |
| `Tokens.SplitAt` | src/subject_utils.hpp:12-22 | the tokens of two texts with a separator between them are those of both |
| `Subjects.ValidateSubject` | src/subject_utils.hpp:25-33 | the scan appends exactly the findings of the subject, in order |
| `Subjects.SubjectFindingsExactly` | src/subject_utils.hpp:25-33 | silent if and only if every token is non-empty and free of spaces |
| `Subjects.WildcardsExactly` | src/subject_utils.hpp:36-43 | the six character tests hold if and only if some token is `*` or the last is `>` |
| `Subjects.CountTokenWildcards` | src/subject_utils.hpp:46-51 | shortcut and loop give the number of `*` in the token list |
| `Subjects.CleanSubject` | src/jwt_utils.cpp:188-203 | the scan returns the join of the tokens before the first wildcard token, or `_` |
| `Subjects.CleanedExactly` | src/jwt_utils.cpp:188-203 | the tokens of the result are those before the first `*` or `>`, or `_` when there are none |
| `Subjects.CleanedTwice` | src/jwt_utils.cpp:188-203 | the result has no wildcard token and is a fixed point |
| `Subjects.CleanedUnchanged` | src/jwt_utils.cpp:188-203 | a subject is its own cleaned form if and only if it is `_` or has no wildcard token |
| `Containment.SubjectIsContainedIn` | src/subject_utils.hpp:54-65 | the early-exit loop decides containment of the token lists |
| `Containment.MatchesExactly` | src/subject_utils.hpp:54-65 | asked about a literal, the check decides whether it matches the pattern, by the meaning of `*` and `>` token by token |
| `Containment.ContainmentExactly` | src/subject_utils.hpp:54-65 | on patterns: every literal subject matching s matches o if and only if the check says contained and the corner (equal length, s ends in `>`, o in `*`) does not apply |
| `Containment.SubjectContainmentExactly` | src/subject_utils.hpp:54-65 | the same for subjects as texts that validateSubject accepts |
| `Containment.CornerExactly` | src/subject_utils.hpp:59-63 | in the corner the check answers by the prefix alone, and inclusion never holds |
| `Containment.CornerExample` | src/subject_utils.hpp:54-65 | `a.>` is reported as contained in `a.*` and is not |
| `Containment.ContainedReflexive` | src/subject_utils.hpp:54-65 | every subject is contained in itself |
| `Containment.ContainedTransitiveExactly` | src/subject_utils.hpp:54-65 | two containments compose if and only if the second is not the corner or the first keeps the token count |
| `Containment.NotTransitive` | src/subject_utils.hpp:54-65 | `a.b.c` is in `a.>`, that in `a.*`, but not the first in the last |
| `Containment.ShareExactly` | src/subject_utils.hpp:54-65 | two patterns have a literal subject in common if and only if they are compatible token by token |
| `Containment.ContainedShare` | src/subject_utils.hpp:54-65 | whenever the check says contained, the corner included, a literal subject is common to both |
| `Containment.UncontainedExactly` | src/subject_utils.hpp:54-65 | of two patterns with a literal in common the first is contained in the second if and only if it is nowhere wider: no wildcard against a plain token, no `>` against more tokens |
| `Renaming.RenamingToSubject` | src/subject_utils.hpp:101-112 | the loop builds the subject whose reference tokens are `*` |
| `Renaming.NothingToRename` | src/subject_utils.hpp:102 | the shortcut without `$` equals the token-wise path |
| `Renaming.ReferenceExactly` | src/subject_utils.hpp:86-88 | a token refers to number n if and only if it is a `$`, any number of zeros, and the decimal digits of n |
| `Renaming.ValidateRenamingSubject` | src/subject_utils.hpp:72-98 | appends exactly the findings of the renaming, in order |
| `Renaming.RenamingExactly` | src/subject_utils.hpp:72-98 | silent if and only if the subject is valid, `from` is not empty, every `$N` has N at most the `*` count of `from`, the plain form has as many `*` tokens, and both or neither end in `>` |
| `Renaming.ReferencesNameExactly` | src/subject_utils.hpp:82-97 | in an accepted renaming every reference names an existing `*` if and only if none is `$0` |
| `Renaming.EachOnceExactly` | src/subject_utils.hpp:82-97 | an accepted renaming refers to each `*` of `from` exactly once if and only if it has no `*` of its own, its references are distinct and none is `$0` |
| `Renaming.ZeroReferenceAccepted` | src/subject_utils.hpp:87-95 | `$0`, which names no wildcard, is accepted for `*` |
| `Renaming.RepeatedReferenceAccepted` | src/subject_utils.hpp:82-97 | `$1.$1` is accepted for `*.*`: one `*` is used twice, the other never |
| `Overlaps.CheckImports` | src/account_claims.cpp:340-360 | the loop with its per-account seen lists appends exactly the overlap findings, in order |
| `Overlaps.OccupiesExactly` | src/account_claims.cpp:345-347 | the occupied subject by its tokens: those of `to`; if that is empty those of the local subject with `*` for every `$N`; if that is empty too those of the subject |
| `Overlaps.ImportFindingsContents` | src/account_claims.cpp:349-359 | reported are exactly the pairs of services of one account with nested occupied subjects, and every subject occupied again |
| `Overlaps.OccupiedExactly` | src/account_claims.cpp:340-360 | something is reported if and only if two services of one account occupy, in that sense, subjects of which one is contained in the other |
| `Overlaps.SeenExactly` | src/account_claims.cpp:348-359 | a seen list holds exactly the occupied subjects of the account's earlier service imports |
| `Overlaps.ImportFindingsExactly` | src/account_claims.cpp:340-360 | something is reported if and only if two service imports of one account have effective subjects contained either way |
| `Overlaps.ReportedShare` | src/account_claims.cpp:340-360 | what is reported on patterns is a literal subject that the occupied subjects of two services of one account share |
| `Overlaps.OverlapExactly` | src/account_claims.cpp:349-354 | subjects are found to overlap if and only if they have a literal in common and do not cross, that is, are not each wider than the other somewhere |
| `Overlaps.ReportedExactly` | src/account_claims.cpp:340-360 | on patterns: something is reported if and only if two services of one account occupy subjects, given by `to`, `localSubject` and `subject`, with a literal in common that do not cross |
| `Overlaps.SharedUnreported` | src/account_claims.cpp:349-354 | `a.*` and `*.b` share `a.b`, cross, and are not reported |
| `Overlaps.ExportOverlaps` | src/account_claims.cpp:325-332 | the double loop builds the map of contained subjects |
| `Overlaps.PassExactly` | src/account_claims.cpp:325-332 | its keys are the subjects that contain the subject of another position, its values the first such subject |
| `ExportChecks.CheckExport` | src/account_claims.cpp:276-322 | appends exactly the findings of one export: type, latency, threshold, subject, token position, info |
| `ExportChecks.PositionExactly` | src/account_claims.cpp:308-321 | the token position is silent if and only if it is 0 or that of a `*` token |
| `ExportChecks.SamplingExactly` | src/account_claims.cpp:293-297 | no range error if and only if the sampling rate is a percentage |
| `ExportChecks.ExportExactly` | src/account_claims.cpp:276-322 | an export has no finding if and only if its type is known, its response type one of the four of a service or none, tracing and latency and threshold are of a service, the latency has a percentage and a literal results subject, its subject is valid, and its token position is 0 or that of a `*` |
| `ExportChecks.CheckTiers` | src/account_claims.cpp:103-110 | appends exactly the findings on tiers next to flat JetStream limits and on blank tier names |
| `ExportChecks.TiersExactly` | src/account_claims.cpp:103-110 | no finding if and only if there are no tiers, or every flat JetStream limit is zero and no tier has an empty name |
| `Overlaps.ReportExports` | src/account_claims.cpp:333-335 | exactly one issue of the kind for each key, in the order of the keys |
| `Overlaps.CheckExports` | src/account_claims.cpp:275-338 | the findings of each export, then those issues for the services, then for all other exports, and nothing else |
| `Overlaps.ExportsReportedExactly` | src/account_claims.cpp:325-338 | nothing is reported if and only if no export's subject is contained in that of another, services compared with services and all others with each other |
| `Weights.ValidateWeights` | src/account_claims.cpp:113-136 | the running totals, wrapping in 32 bits, yield exactly the findings of the mapping |
| `Weights.StepFindingsExactly` | src/account_claims.cpp:116-132 | the loop is silent if and only if every named cluster sums to at most 100 and no effective weight exceeds 100 |
| `Weights.SumExactly` | src/account_claims.cpp:117 | what is summed up are the weights as given, and 100 for every destination without one |
| `Weights.StepFindingsContents` | src/account_claims.cpp:116-132 | the loop reports every weight above 100, and the cluster of every destination with which its 32-bit total is above 100, and nothing else |
| `Weights.WeightFindingsExactly` | src/account_claims.cpp:113-136 | the mapping is silent if and only if moreover the wrapped default total is at most 100 |
| `Weights.BalancedExactly` | src/account_claims.cpp:113-136 | the same in terms of the weights as given |
| `Weights.UnweightedAlone` | src/account_claims.cpp:113-136 | an accepted cluster has at most one destination without a weight, and then all its other weights are zero too |
| `Weights.ShortListExactly` | src/account_claims.cpp:113-136 | for up to 42949672 destinations: silent if and only if every cluster sums to at most 100 |
| `Weights.AtMost100Destinations` | src/account_claims.cpp:113-136 | an accepted cluster has at most 100 destinations, a named one for any list, the default one up to that length |
| `Weights.WrappedTotalAccepted` | src/account_claims.cpp:130-133 | one destination more, all of weight 100 in the default cluster, wrap to a total of 4 and are accepted |
| `AccountState.RevocationsExactly` | src/account_claims.cpp:508-518 | after any calls a key holds the largest timestamp since its last clear, or nothing |
| `AccountState.RevokedExactly` | src/account_claims.cpp:520-525 | revoked if and only if some call revoked the key, or `*`, from a time not before the claim's, and no later call cleared that revocation |
| `AccountState.RevokeCommutes` | src/account_claims.cpp:508-514 | revocations commute, and repeating one changes nothing |
| `AccountState.RevokeMonotone` | src/account_claims.cpp:508-525 | no revocation ever makes a revoked claim valid |
| `AccountState.AccountClaims.RevokeAt` | src/account_claims.cpp:508-514 | the call appends one revocation to the history that determines the state |
| `AccountState.AccountClaims.ClearRevocation` | src/account_claims.cpp:516-518 | the call appends one clear to that history |
| `AccountState.AccountClaims.IsRevoked` | src/account_claims.cpp:520-525 | answers by that condition on the history of calls |
| `AccountState.KeysConsistent` | src/account_claims.cpp:466-479 | over every sequence of calls each scope is filed under its own key, and that key is listed |
| `AccountState.KeysExactly` | src/account_claims.cpp:466-485 | a key is listed if and only if a call named it; its scope is the last one set for it |
| `AccountState.ListedNext` | src/account_claims.cpp:461-479 | every added key is listed again, in the order of the calls; a scope lists its key only when no earlier call named it |
| `AccountState.LastScopeExactly` | src/account_claims.cpp:466-485 | the scope of a key is that of the last call that set one for it |
| `AccountState.AccountClaims.GetScope` | src/account_claims.cpp:481-485 | the last scope set for the key in the history of calls |
| `Ordering.SortSorted` | src/account_claims.cpp:616-618 | the sorted list is in `std::string` order |
| `Ordering.LessExactly` | src/account_claims.cpp:616-618 | the order is that of a dictionary: at the first difference one text ends or has the smaller character |
| `Ordering.SortStable` | src/account_claims.cpp:616-618 | elements with equal keys keep their order |
| `Ordering.StableSortUnique` | src/account_claims.cpp:616-618 | sorted and stable determine the result: it is what `std::stable_sort` gives |
| `ScopeWire.ScopeRoundTrip` | src/scope_serialization.hpp:77-97 | a scope comes back with its template limits of 0 turned into -1 |
| `ScopeWire.AbsentLimits` | src/scope_serialization.hpp:60-97 | whoever wrote it: an absent template, and an absent limit in one, means -1 |
| `ScopeWire.TemplateHolds` | src/scope_serialization.hpp:35-48 | the names and values of the members of a template; zero, false and empty ones are left out |
| `ScopeWire.PartNames` | src/scope_serialization.hpp:12-41 | the names of the members of permissions, response permissions and daily windows |
| `ScopeWire.ToInt32Exactly` | src/scope_serialization.hpp:57-58 | the cast to `int` keeps the low 32 bits |
| `ScopeWire.ScopeUnchangedExactly` | src/scope_serialization.hpp:26-97 | it comes back unchanged if and only if no template limit is 0 |
| `ScopeWire.ScopeRewrittenExactly` | src/scope_serialization.hpp:26-97 | and is written the same way again if and only if no template limit is 0 |
| `ScopeWire.PermissionRoundTrip` | src/scope_serialization.hpp:12-24 | permissions come back exactly |
| `AccountParts.LimitsRoundTrip` | src/account_claims.cpp:48-95 | account limits come back, the flat JetStream limits zeroed next to tiers, which only foreign objects hold together |
| `AccountParts.LimitsUnchangedExactly` | src/account_claims.cpp:48-95 | unchanged if and only if tiers are absent or the flat JetStream limits are zero |
| `AccountParts.LimitsHold` | src/account_claims.cpp:48-70 | the names and values of the members of account limits |
| `AccountParts.ExportHolds` | src/account_claims.cpp:142-166 | the names and values of the members of an export |
| `AccountParts.ImportHolds` | src/account_claims.cpp:194-206 | the names and values of the members of an import |
| `AccountParts.KindNames` | src/jwt_utils.cpp:357-370 | stream, service and nothing are the names of the kinds; any other name is malformed |
| `AccountParts.LatencyNames` | src/account_claims.cpp:151-186 | a rate of 0 is written as "headers", any other as the number; every string reads as 0 |
| `AccountParts.ExportRoundTripExactly` | src/account_claims.cpp:142-192 | an export comes back exactly if and only if its sampling rate is a percentage, as the encoder demands; else decoding would fail |
| `AccountParts.ImportRoundTrip` | src/account_claims.cpp:194-220 | an import comes back exactly |
| `AccountParts.MappingsRoundTrip` | src/account_claims.cpp:598-613 | mappings come back exactly |
| `AccountParts.AuthorizationRoundTrip` | src/account_claims.cpp:251-266 | external authorization comes back exactly |
| `AccountWire.KeyItemsRead` | src/account_claims.cpp:642-659 | the emitted array reads as one call per listed key, in sorted order |
| `AccountWire.ManagedExactly` | src/account_claims.cpp:589-664 | the thirteen members of `nats` that belong to an account |
| `AccountWire.WrittenExactly` | src/account_claims.cpp:589-664 | type and version 2, limits, permissions and authorization always; lists and maps if and only if they are not empty |
| `AccountWire.DecodedExactly` | src/account_claims.cpp:776-846 | an object decodes to an account if and only if each member, under its name, reads as that part |
| `AccountWire.AbsentConfiguration` | src/account_claims.cpp:777-846 | absent limits are 0, absent permissions and keys are none |
| `AccountWire.RereadSorted` | src/account_claims.cpp:616-640 | the same exports and imports come back in the order of their subjects |
| `AccountWire.KeyEntryExactly` | src/account_claims.cpp:836-846 | a text is a plain key, an object of kind user_scope a scope; any other entry is refused |
| `AccountWire.RereadKeysExactly` | src/account_claims.cpp:836-846 | the same keys and scopes come back, sorted, zero limits lifted, and consistent |
| `AccountWire.CallsRunListed` | src/account_claims.cpp:836-846 | the key list comes back at full length if and only if no scoped key is listed twice |
| `AccountWire.CarriedThrough` | src/account_claims.cpp:589-664 | through decoding and encoding, once and twice, every member the account does not manage survives |
| `AccountWire.AccountRoundTripExactly` | src/account_claims.cpp:776-846 | reading the written `nats` object of any account gives exports and imports stably sorted, flat JetStream zeroed next to tiers and keys as above, if and only if every sampling rate is a percentage |
| `AccountWire.RereadAccountTwice` | src/account_claims.cpp:757-846 | what this encoder's own output decodes to is re-read unchanged |
| `AccountWire.DecodedAccountIsStable` | src/account_claims.cpp:589-664 | and so is a fixed point of encoding and decoding |
| `AccountWire.ReencodedExactly` | src/account_claims.cpp:589-664 | re-encoding what was decoded from an object this encoder wrote gives that object if and only if no flat JetStream stood next to tiers, no scoped key was repeated and no template limit of a listed scope was 0 |
| `AccountWire.DecodedIsFit` | src/account_claims.cpp:776-846 | whoever wrote it: a decoded account has consistent keys, percentages for sampling rates, and one kind of JetStream limits |
| `AccountWire.DecodedRoundTrip` | src/account_claims.cpp:589-664 | whoever wrote it: encoding a decoded account and decoding again re-reads it, and from then on nothing changes |
| `AccountWire.DecodedUnchangedExactly` | src/account_claims.cpp:589-664 | that first round trip is the identity if and only if exports, imports and keys are in order, no scoped key is repeated and no limit of a scope is 0 |
| `AccountWire.DecodedReencodedExactly` | src/account_claims.cpp:589-664 | a second encoding gives the first one's object if and only if no scoped key is repeated and no limit of a scope is 0; a third always gives the second's |
| `AccountWire.UnsortedExports` | src/account_claims.cpp:805-807 | a foreign object that lists export `b` before `a` decodes in that order and is changed by the round trip |
| `UserWire.UserRoundTrip` | src/user_claims.cpp:319-368 | reading the written `nats` object of any user gives the user back exactly |
| `UserWire.ManagedExactly` | src/user_claims.cpp:213-258 | the sixteen members of `nats` that belong to a user |
| `UserWire.DecodedExactly` | src/user_claims.cpp:319-368 | an object decodes to a user if and only if each member, under its name, reads as that part |
| `UserWire.DecodedUser` | src/user_claims.cpp:319-368 | an absent limit is 0, an empty issuer account is none |
| `UserWire.SrcTextExactly` | src/user_claims.cpp:329-340 | a source list given as a text: the parts between commas, trimmed, in lower case, without empty and repeated ones |
| `UserWire.SrcArrayExactly` | src/user_claims.cpp:329-340 | given as an array it is read as it is, anything else fails |
| `UserWire.NormalizeExactly` | src/claims.cpp:8-16 | the blanks around a tag go, and A to Z become lower case |
| `UserWire.NormalizedTwice` | src/claims.cpp:19-22 | doing it again changes nothing, so a tag can be looked up among normalized ones |
| `UserWire.AddTagsExactly` | src/claims.cpp:24-29 | added are the normalized tags that are not empty and not there yet, each once, behind those that were there |
| `UserWire.AddTagsInOrder` | src/claims.cpp:24-29 | they come in the order they were given |
| `UserWire.UserReencoded` | src/user_claims.cpp:213-258 | and it is written to the same object again |
| `UserWire.DecodedRoundTrip` | src/user_claims.cpp:213-258 | whoever wrote it: a decoded user, encoded, decodes to itself and encodes to the same object again, and every member it does not manage survives |
| `UserWire.UserClaims.SetScoped` | src/user_claims.cpp:142-157 | a scoped user has empty permissions; unscoping resets the limits and nothing else |
| `UserWire.EmptyOnTheWireExactly` | src/user_claims.cpp:159-169 | permissions are empty if and only if none of their members is written |
| `Writing.WriteTemplate` | src/scope_serialization.hpp:35-48 | the key-by-key writer gives the template object |
| `Writing.WriteUser` | src/user_claims.cpp:213-258 | setting and erasing one key after the other gives the encoded object, whatever was carried, and leaves every unmanaged member alone |
| `Writing.WriteKeys` | src/account_claims.cpp:642-659 | the loop emits the sorted array, a scope object exactly for scoped keys |
| `Writing.WriteAccount` | src/account_claims.cpp:589-664 | setting and erasing one key after the other gives the encoded object, whatever was carried, and leaves every unmanaged member alone |
| `Writing.ReadEach` | src/account_claims.cpp:805-810 | the push_back loop reads the whole list, or fails with the first bad item |
| `Writing.ReadKeysInto` | src/account_claims.cpp:836-846 | the loop makes exactly the calls the array describes, or fails with the first bad entry |
| `Writing.RoundTripKeys` | src/account_claims.cpp:642-659 | keys written and read into fresh claims are the keys as the decoder restores them |
| `Tokenization.ParseJwt` | src/jwt_utils.cpp:481-530 | the three searches decide and yield the parts |
| `Tokenization.PartsExactly` | src/jwt_utils.cpp:481-530 | parsing gives p if and only if the token is at most 2^20 bytes and is the dotted join of p's three non-empty dot-free parts |
| `Tokenization.SignAndAssemble` | src/jwt_utils.cpp:248-270 | returns a token exactly when the signature verifies against the issuer it names |
| `Tokenization.AssembledParses` | src/jwt_utils.cpp:248-270 | such a token within the limit parses into the encoded parts, which decode to the payload bytes, and its signature verifies |
| `Json.IntFieldExactly` | src/jwt_utils.cpp:315-332 | a missing or null integer reads as its default, one of 64 bits as itself, anything else is malformed |
| `Json.UintFieldExactly` | src/jwt_utils.cpp:334-343 | the same for integers from 0 to a maximum |
| `Json.StringsFieldExactly` | src/jwt_utils.cpp:345-349 | a missing or null list is empty; else every item has to be a string |
| `Json.OmissionsExactly` | src/scope_serialization.hpp:34-46 | zero, false, the empty text and the empty list are left out, nothing else is |
| `Envelopes.DecodeEnvelope` | src/jwt_utils.cpp:403-479 | the steps, each failure in its place, give the verified and migrated payload |
| `Envelopes.HeaderExactly` | src/jwt_utils.cpp:290-313 | a header is supported if and only if its type is JWT and its algorithm ed25519 or ed25519-nkey, letters compared without regard to case; that algorithm comes out |
| `Envelopes.HeaderMalformed` | src/jwt_utils.cpp:290-303 | it is malformed if and only if it is not an object or one of the two is there and no string |
| `Envelopes.VersionExactly` | src/jwt_utils.cpp:420-441 | version 1 is declared by a non-empty top-level type or by `nats` without one, version 2 by `nats` alone, and no other is supported |
| `Envelopes.VersionMalformed` | src/jwt_utils.cpp:420-441 | when the version cannot be read, and that every other failure is an unsupported one |
| `Envelopes.DecodesExactly` | src/jwt_utils.cpp:403-479 | a token of three readable parts decodes if and only if its header and version are supported, issuer and subject are strings, the issuer's key verifies the signature over the text of the version, and a version 1 has a top-level type |
| `Envelopes.HeaderFailure` | src/jwt_utils.cpp:404-419 | a header failure comes before everything else of the payload |
| `Envelopes.PayloadFailure` | src/jwt_utils.cpp:434-453 | then the version, then issuer and subject, then the signature |
| `Envelopes.V1Decodes` | src/jwt_utils.cpp:403-479 | a v1-layout token with either algorithm, in letters of any case, signed over its payload part alone, decodes to the migrated payload |
| `Envelopes.EnvelopeIsAuthentic` | src/jwt_utils.cpp:429-453 | an envelope has version 1 or 2, and its own issuer's key verified it, over the payload part if and only if the version is 1 |
| `Envelopes.Version2Unchanged` | src/jwt_utils.cpp:455-478 | a version 2 payload is returned as it was signed |
| `Envelopes.Migrate` | src/jwt_utils.cpp:455-477 | the assignments and erasures give the migrated payload |
| `Envelopes.V1Migration` | src/jwt_utils.cpp:455-477 | a v1 layout keeps its other top-level members, loses type, tags and issuer_account there and carries them in `nats`; every unlisted `nats` member is unchanged, and the listed ones by claim type are as stated |
| `Envelopes.AbsentTypeExactly` | src/jwt_utils.cpp:455-460 | a verified payload fails if and only if it is version 1 with no top-level type, and then with a JSON-library error |
| `Envelopes.MigratedNotAgain` | src/jwt_utils.cpp:420-478 | a migrated payload, signed again, would fail that way |
| `Envelopes.IssuedDecodes` | src/jwt_utils.cpp:248-270 | a token assembled from a version 2 payload decodes to that payload |
| `Dispatch.ClaimType` | src/jwt.cpp:32-44 | the local type, assigned and reassigned, is the non-empty top-level type, else that of `nats` |
| `Dispatch.DecodeJwt` | src/jwt.cpp:15-44 | dispatch on that type, with header, envelope and type failures in the source's order |
| `Dispatch.VerifyJwt` | src/jwt.cpp:57-68 | verify answers yes exactly for the tokens whose envelope decodes, and never fails |
| `Dispatch.KindExactly` | src/jwt.cpp:33-44 | the type is the top-level one unless it is absent or empty, else that of `nats`, else none; and fails if the one looked at is no string |
| `Dispatch.OwnDecoder` | src/jwt.cpp:46-51 | tokens of the six types come out as verified envelopes of that type or fail as their envelope does |
| `Dispatch.OtherTypes` | src/jwt.cpp:52-54 | cluster and server are refused, every other type is read as generic claims |
| `Dispatch.GenericExactly` | src/generic_claims.cpp:114-143 | a readable token gives generic claims if and only if its header is supported, issuer and subject are strings, and the issuer's key verifies the signature, over the payload part when the header says ed25519, else over both |
| `Dispatch.TypeAgreesExactly` | src/jwt.cpp:28-44 | decode dispatches on the type the envelope carries if and only if that type was not displaced by an empty top-level one, which needs version 1 outside the v1 layout |
| `Dispatch.MismatchExactly` | src/jwt.cpp:46-51 | a typed decode of a verified token reports a mismatch if and only if its type was displaced |
| `Dispatch.DisplacedToken` | src/jwt_utils.cpp:457-470 | a version 1 token with an empty top-level type and user `nats`: it verifies, is dispatched as a user and is refused |
| `Dispatch.TypedIsVerified` | src/jwt.cpp:57-68 | typed claims come out of decode only for tokens that verify accepts |
| `Dispatch.DecodedIsSigned` | src/jwt.cpp:15-55 | whatever decode returns, generic claims too, names an issuer whose key signed the token |
| `Dispatch.GenericVerifiedExactly` | src/generic_claims.cpp:114-143 | for generic claims, verify agrees if and only if the version is supported, a version 1 has a top-level type, and, where header and version differ, the signature verifies over the other text as well |
| `Dispatch.GenericIsVerified` | src/generic_claims.cpp:114-143 | where header and version agree, only a version 1 without a top-level type parts them |
| `Dispatch.GenericUnverified` | src/generic_claims.cpp:114-143 | a signed payload with neither type nor `nats` decodes as generic claims and does not verify |
| `Claims.WritePayload` | src/account_claims.cpp:570-584 | the standard members, one after the other, and the identifier computed over the text without it |
| `Claims.SealedExactly` | src/account_claims.cpp:569-668 | the identifier of a payload is that of its text without the identifier |
| `Claims.StandardExactly` | src/account_claims.cpp:768-831 | the names of the standard claims, and that a missing time is 0 |
| `Claims.StandardReads` | src/account_claims.cpp:768-831 | standard claims come back, an empty name as none and a time that is not positive as 0 |
| `Claims.ValidateAccount` | src/account_claims.cpp:730-735 | the throw comes exactly when one of the checks on tiers, mapping weights, exports, export overlaps and import overlaps has a finding, as all of these block |
| `Claims.AcceptableExactly` | src/account_claims.cpp:100-360 | those checks let an account through if and only if its tiers stand alone and are named, its mappings are balanced, its exports are sound and apart, and no two service imports of one account occupy nested subjects |
| `Claims.AcceptableGuarantees` | src/account_claims.cpp:672-735 | an account let through has no named cluster above 100 or with more than 100 destinations, nor a default one in a list of safe length, no export contained in another of its kind, no nested service imports, and percentages for sampling rates |
| `Claims.AcceptableRoundTrip` | src/account_claims.cpp:589-664 | every account those checks let through decodes, unconditionally, to itself up to the order of its lists and its keys |
| `Claims.EncodeAccount` | src/account_claims.cpp:553-670 | a token comes out exactly when structure, checks and signature are in order, and it is the assembled payload of the stamped claims |
| `Claims.EncodeUser` | src/user_claims.cpp:176-264 | the same for users |
| `Claims.DecodeToClaims` | src/jwt.cpp:15-55 | decode up to the claims of accounts and users: dispatch, envelope, type, standard claims, `nats`, structure, in the source's order of failures |
| `Claims.EncodedAccountDecodes` | src/account_claims.cpp:553-849 | the token of an admitted account decodes to that account: standard claims re-read, lists sorted, keys restored, the written object carried |
| `Claims.EncodedUserDecodes` | src/user_claims.cpp:176-374 | the token of an admitted user decodes to that user exactly, its standard claims re-read |
| `Claims.AccountThereAndBack` | src/account_claims.cpp:553-849 | from the arguments of the encoder: the decoded account names the signing key as issuer and the time of encoding as its time of issue, and keeps subject, name, audience and times |
| `Claims.UserThereAndBack` | src/user_claims.cpp:176-374 | the same for users |
| `Claims.AdmittedKinds` | src/jwt_utils.cpp:372-401 | what is encoded is subject to a key of its kind and signed by one of the kinds allowed |
| `Claims.DecodedAccount` | src/account_claims.cpp:750-849 | whoever wrote it: so is what decodes as an account, and its claims are read from the payload that was verified |
| `Claims.DecodedUser` | src/user_claims.cpp:290-374 | the same for a user |
| `Chain.ValidateIssuerChain` | src/validation.cpp:85-158 | the key scan and the two tests accept exactly a vouched-for issuer, a matching issuer account and, for a scoped key, empty permissions |
| `Chain.TrustedExactly` | src/validation.cpp:85-158 | said of the fields: the issuer is the parent's subject, or in the signing keys of the operator or account the parent is; the issuer account of a user or response, if any, is the parent's subject; a user of a scoped key has nothing of its own |
| `Chain.ValidateKeyHierarchy` | src/validation.cpp:160-199 | the branches accept exactly the three parent-child kinds, with a self-signed operator |
| `Chain.LinkExactly` | src/validation.cpp:85-199 | a link is accepted if and only if the issuer is trusted in that sense and of the parent's kind, and an operator follows itself, an account an operator or a user an account |
| `Chain.SigningKeysAccepted` | src/validation.cpp:93-112 | an account issued by a listed operator key and a user issued by a listed account key are accepted, a scoped key demanding empty permissions |
| `Chain.ValidateTiming` | src/validation.cpp:27-83 | the two time checks, each only when asked for and set, with the skew in the claims' favour |
| `Chain.ValidateChain` | src/validation.cpp:257-308 | the verdict is justified: acceptance means all tokens and links hold, a rejection names the first fault |
| `Chain.OneVerdict` | src/validation.cpp:257-308 | no two verdicts are justified of the same tokens |
| `Chain.HierarchyExactly` | src/validation.cpp:160-199 | two tokens or more are in hierarchy if and only if their kinds are O..O, O..OA, O..OAU or AU with equal operators and every issuer is of its parent's kind |
| `Chain.LinkedExactly` | src/validation.cpp:282-304 | and are linked if and only if moreover every issuer is trusted, in terms of the fields |
| `Chain.AcceptedExactly` | src/validation.cpp:257-308 | with issuer checking, exactly the chains of valid tokens of that form whose issuers are trusted, in terms of the fields, are accepted |
| `Chain.AcceptedTokens` | src/validation.cpp:201-236 | every token of an accepted chain decodes, is valid by itself, verifies when that is asked for, and is within its times by the skew |
| `Chain.RootOfTrust` | src/validation.cpp:257-308 | trust reaches from the first token to the last: all operators are one, the account's issuer is a key of the operator or listed by its last token, the user's is a key of the account or listed by it, and the account a user names is that one |
| `Chain.TrustIsSigned` | src/validation.cpp:257-308 | and by signature: every token of an accepted chain is signed with the key it names, from the second on one that the token before is or lists |
| `Chain.TrustIsVerified` | src/validation.cpp:210-216 | with signatures checked, the key every token of an accepted chain names is valid and verifies the signature over exactly the text of the token's version |
| `Claims.DecodingIsAuthentic` | src/validation.cpp:277-282 | decoding as modelled meets the assumption of those theorems on the issuer |

## Left out

- Ed25519, nkeys, curve sealing and decorated credentials: other libraries; signatures and key kinds are parameters.
- JSON text: parsing, dumping, escapes, number syntax and key order; a payload is an object, a float only a kind.
- Issue texts: a finding has a kind and its arguments, and the blocking and time-check flags.
- Claims.ValidateAccount: the checks on permissions, authorization, counts, signing keys, info and the activation tokens of imports are not modelled.
- Claims.EncodeAccount: those checks enter as one answer, `others`.
- Dispatch.DecodeJwt: stops before typed claims are read; Claims.DecodeToClaims goes on for accounts and users.
- Claims.EncodeUser: the checks on permissions, CIDR and times of day enter as one answer, `others`.
- Claims.DecodeToClaims: operator, activation, authorization and generic claims stop at their envelope or payload; their fields are copied.
- Chain.ValidateChain: the clock is read once for the chain, `exp` plus skew does not overflow, and the own validation of a token is a function of the token.
- ExportChecks.CheckExport: what `validateInfo` finds is a parameter.
- Overlaps.CheckImports: only the overlaps; the other checks of an import are one test each.
- `std::stoi` on very long `$N` references: N is an unbounded number.
- Characters above 255: a C++ string is bytes, so texts with larger characters do not arise.
- Sha2.Compress: the word operations (shifts, rotations, addition) are fields of a record, because bit-vectors inside the round loop are too costly; `Sha2Variants` supplies them as bit-vectors.
- AccountParts.ExportRoundTripExactly: `exportToJson` and `importToJson` and the limits, mappings and authorization writers are functions from member names to values, which do not show the order of the assignments.
- AccountWire.AccountRoundTripExactly: the `nats` object alone; `Claims` adds standard claims, structure and token.
- UserWire.UserRoundTrip: the `nats` object alone; `Claims` adds the rest.
- Command-line tools, file output, tests and packaging.
