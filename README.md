# random-lines, modelled in Dafny

random-lines prints a uniformly chosen subset of the lines of its input,
in input order. It chooses them with a sequential sampler (Vitter's
Methods A and D, 1987). The sampler takes its uniform variates from a
32-bit Mersenne Twister (MT19937). Around these two pieces sit a small
string library, a command-line option parser and a few numeric helpers.
This project models all five and proves properties of each:

- `engine.dfy` (module `Engine`): the twister. `Rng` is a class over a
  624-word `array<bv32>` and a cursor. Seeding and the in-place twist are
  proved to follow the reference recurrence `Stream`. Every draw is proved
  to be the tempered next word of that stream. The word-level twist sits in
  module `Twist`, with what the last word's update computes as written.
- `sampler.dfy` (module `Sampling`): the sampler. `SamplerState` and
  `Step` are the specification of one `sample()` call. `Sampler` is the
  class whose methods update the fields in place, and each is proved equal
  to `Step`. Method A's skip search runs over `real`, with the draw
  idealised as `raw / 4294967295`. Method D's floating-point proposal is an
  oracle (`Proposal`), constrained only by what its loops guarantee on exit:
  `0 <= s < qu1`.
- `strings.dfy` (module `Strings`): tokenize, ljust/rjust, strip, starts_with,
  word wrap and fill, Levenshtein and Hamming distances, ASCII case mapping.
- `options.dfy` (module `Options`):
  - The option classes are a tagged datatype (`Kind`), and `process` is a
    `Reaction`.
  - `parse` returns an `Outcome`: the events it recorded, help, version,
    or the error message.
  - The `Parser` class holds the registered options and arguments.
  - Its lookup, collection and parsing methods are proved equal to
    reference functions. Lemmas about those functions give the lookup
    rules, the value-count rules and the slot filling.
- `functions.dfy` (module `Functions`): the variadic `min`/`max`/`argmin`/
  `argmax` over the sequence of their arguments, `plus`/`multiplies` applied
  to one array element, and `sqr`.

Behaviour the model follows from the code:

- While one position is left to choose (`n == 1`), `sample()` never
  decrements `n`. So a call after the last wanted one returns yet another
  position, not 0. `Sampling.LastItemRepeats` states this. Only a sampler
  constructed with `n < 1` returns 0.
- The single-skip branch uses a fresh uniform only once Method A has run;
  otherwise it reuses `v_prime`. The model uses the corrected choice (see
  Findings).
- The position the single-skip branch returns is within the population only
  when its uniform is below 1. The draw `0xffffffff / 4294967295` is exactly
  1 (`Engine.ToUnit`, `Sampling.LastItemInRange`).
- `hamming_distance` reads `b` at every index of `a`. Reading `b[|b|]` gives
  the terminating NUL of a `std::string`, so the model requires
  `|a| <= |b| + 1` and reads that character as `'\0'`.
- `get_usage` appends a count to a `std::string`. This appends the character
  with that code, not its decimal digits (`Options.UsageCountsAsCharacters`).
- At the end of `parse`, only the current positional slot is checked
  against its minimum (`Options.LaterSlotsUnchecked`).

## Model

| member | source | states |
|---|---|---|
| `Engine.InitState` | include/rng.hh:87-93 | The seeded state has 624 words. Word 0 is the seed's low 32 bits. Word k is `1812433253 * (w ^ (w >> 30)) + k` mod 2^32 of word k-1. |
| `Engine.Seed` | include/rng.hh:88-92 | After the seeding loop, every array word equals the seeded word of the same index. |
| `Engine.Rng.Init` | include/rng.hh:87-93 | After `init`, the state is `InitState(seed)` and the cursor is 624, so the first draw regenerates. The engine invariant holds. |
| `Engine.Rng.constructor` | include/rng.hh:12-40 | An explicit seed is used as given. The value `(unsigned long)-1` selects the clock seed, which is passed in. The cursor starts at 624 with no draws taken. |
| `Engine.TwistLow` | include/rng.hh:100-103 | Words 0..226 become the next stream words, reading old words 397..623. Words 227..623 are unchanged. |
| `Engine.TwistHigh` | include/rng.hh:104-109 | Words 227..622 read the already rewritten words 0..395. Word 623 reads new words 396 and 0. Afterwards all 624 words are the next 624 words of the stream. |
| `Engine.Rng.Generate` | include/rng.hh:95-112 | Regeneration in place sets the cursor to 0. Word j becomes word 624 + j of the reference recurrence started from the old state. |
| `Engine.StreamShift` | include/rng.hh:95-112 | If a state holds words d..d+623 of the stream, the stream from that state is the original stream shifted by d. So repeated regeneration walks one stream. |
| `Engine.LastPartnerIndexAsWritten` | include/rng.hh:99-108 | After the two loops, the index line 108 reads as successor of the last word is 624, outside the 624-word array. |
| `Twist.TwistWordNext` | include/rng.hh:100-109 | Two twists of the same word with the same partner agree exactly when the successors agree in their lower 31 bits. |
| `Twist.LastWordAsWrittenAgrees` | include/rng.hh:108-109 | The last word as written, with the word past the array as successor, equals the reference last word (successor word 0) exactly when those two words agree in their lower 31 bits. |
| `Engine.Rng.Sample` | include/rng.hh:114-125 | A draw returns `Temper(word k)` of the stream, where k counts earlier draws. It regenerates first only when the cursor is at 624. The cursor and the draw count each advance by one. The invariant is kept. |
| `Engine.WordValue` | include/rng.hh:119-124 | Every word and every tempered draw is below 2^32. |
| `Engine.Rng.NextUnsignedLong` | include/rng.hh:74-76 | `operator unsigned long` returns the draw unchanged, below 2^32, and consumes one draw. |
| `Engine.AsLong` | include/rng.hh:78-80 | The draw shifted right by one is below 2^31, and twice it is the draw with its low bit cleared. |
| `Engine.Rng.NextLong` | include/rng.hh:78-80 | `operator long` returns the next draw shifted right by one and consumes one draw. |
| `Engine.AsSigned32` | include/rng.hh:70-72 | Conversion to `int` gives a value in [-2^31, 2^31) congruent to the draw mod 2^32. |
| `Engine.Rng.NextInt` | include/rng.hh:70-72 | `operator int` returns the next draw as a signed 32-bit value and consumes one draw. |
| `Engine.ToUnit` | include/rng.hh:82-84 | `raw / (2^32 - 1)` lies in [0, 1], and equals 1 exactly when raw is `0xffffffff`. |
| `Engine.Rng.NextUniform` | include/rng.hh:82-84 | `operator double` returns `ToUnit` of the next draw and consumes one draw. |
| `Engine.SameSeedSameDraws` | include/rng.hh:12-40 | Two engines built with the same explicit seed, whatever their clocks, give the same draw. |
| `Sampling.Init` | include/sequential_sampler.hh:13-22 | Construction sets `i = 0`, `threshold = 13 n` and neither method initialised. |
| `Sampling.InitInv` | include/sequential_sampler.hh:13-22 | Construction with `n <= N` establishes the sampler invariant. |
| `Sampling.Sampler.constructor` | include/sequential_sampler.hh:13-22 | The new sampler's fields are `Init(n, N)`, it keeps the engine, and the invariant holds. |
| `Sampling.Dispatch` | include/sequential_sampler.hh:24-38 | Method D is chosen iff `n > 1` and `threshold < N`. Method A iff `n > 1` and `threshold >= N`. The single skip iff `n == 1`. Nothing iff `n < 1`. |
| `Sampling.StepExhausted` | include/sequential_sampler.hh:36-37 | With `n < 1` a call returns 0 and changes no field. |
| `Sampling.Sampler.Sample` | include/sequential_sampler.hh:24-41 | One call updates the fields and returns exactly as `Step` does, with the engine's next uniform. The engine is drawn from only by Method A and a fresh single skip. The invariant is kept. |
| `Sampling.QuotBounds` | include/sequential_sampler.hh:56-62 | Every value of `quot` in Method A's loop lies in [0, 1). |
| `Sampling.QuotVanishes` | include/sequential_sampler.hh:58-62 | When `top` reaches 0, `quot` is 0, so the loop ends with `s <= top`. |
| `Sampling.SkipA` | include/sequential_sampler.hh:54-63 | Method A's skip is at most `top`. Its `quot` is not above `v`, and every earlier round's `quot` was above `v`. |
| `Sampling.SkipAUnique` | include/sequential_sampler.hh:58-63 | These two exit conditions determine the skip uniquely. |
| `Sampling.SkipAMonotone` | include/sequential_sampler.hh:54-63 | A larger uniform never gives a larger skip. |
| `Sampling.Sampler.SearchSkip` | include/sequential_sampler.hh:55-63 | The loop returns `SkipA(top, N, v)` and lowers `top` and `N` by exactly the skip. |
| `Sampling.Sampler.MethodAStep` | include/sequential_sampler.hh:44-71 | A Method A call sets `top = N - n` on first use and takes one draw. The new fields are `StepA` of the old ones. |
| `Sampling.MethodAKeepsTop` | include/sequential_sampler.hh:44-71 | `top == N - n` holds after every Method A step, and the skip is at most `N - n`. |
| `Sampling.MethodAFullPopulation` | include/sequential_sampler.hh:54-66 | When `n == N`, Method A's skip is 0, so the next position is `i + 1`. |
| `Sampling.Sampler.MethodDStep` | include/sequential_sampler.hh:75-127 | A Method D call sets `qu1 = N - n + 1` on first use. For the accepted skip it updates `i`, `N`, `n`, `qu1`, `threshold` and `v_prime` as `StepD` does. |
| `Sampling.MethodDKeepsQu1` | include/sequential_sampler.hh:77-126 | `qu1 == N - n + 1` holds after every Method D step. A skip below `qu1` leaves at least `n - 1` positions for the `n - 1` still to choose. |
| `Sampling.LastItemSource` | include/sequential_sampler.hh:29-34 | The corrected single skip reuses `v_prime` exactly when Method D has run and Method A has not. |
| `Sampling.Sampler.LastItemStep` | include/sequential_sampler.hh:29-35 | The single-skip branch adds `floor(N w) + 1` to `i` and changes nothing else. It draws from the engine exactly when the uniform is fresh. |
| `Sampling.StepLastBounds` | include/sequential_sampler.hh:29-35 | The single skip moves `i` forward by at least 1 and at most `N + 1`. |
| `Sampling.LastSkipBounds` | include/sequential_sampler.hh:31-33 | `floor(N w)` lies in [0, N], and is below N exactly when `w < 1`. |
| `Sampling.StepInv` | include/sequential_sampler.hh:24-41 | Every call keeps the invariant: `n <= N`, `i >= 0`, the Method A and D relations, and `v_prime` in [0, 1]. |
| `Sampling.StepProgress` | include/sequential_sampler.hh:44-127 | A Method A or D call lowers `n` by one. It moves `i` forward by the skip plus one, and lowers `N` by the same amount, so `i + N` is unchanged. It returns the new `i`. |
| `Sampling.ThresholdTracksN` | include/sequential_sampler.hh:17-127 | `threshold` drops by 13 per Method D call and is otherwise unchanged, so it equals `13 n` until Method A runs. |
| `Sampling.ANeverThenD` | include/sequential_sampler.hh:25-71 | Once Method A has run, Method D is not chosen, now or after the call. |
| `Sampling.LastItemRepeats` | include/sequential_sampler.hh:29-35 | The single skip keeps `n` and `N`, so the next call takes it again and returns a larger position. |
| `Sampling.LastItemInRange` | include/sequential_sampler.hh:29-35 | While `i + N` equals the population size, the position returned is within it exactly when the uniform is below 1. |
| `Sampling.AsWrittenReadsUnsetVPrime` | include/sequential_sampler.hh:29-35 | As written, a sampler constructed with `n == 1` reads `v_prime` on its first call, though neither method has run to assign it. |
| `Sampling.LastItemSourceCorrected` | include/sequential_sampler.hh:29-35 | The corrected choice reads `v_prime` only after Method D assigned it. It agrees with the source whenever a method has run. |
| `Sampling.PositionsIncrease` | include/sequential_sampler.hh:24-41 | Over any run of calls from a state with a position to choose, the returned positions strictly increase and exceed the last one before. |
| `Sampling.PositionsBelowPopulation` | include/sequential_sampler.hh:24-127 | The first `n - 1` positions of a run are below the population size. |
| `Strings.IsWhitespaceMatchesChars` | include/string.hh:15-31 | `is_whitespace` holds exactly for the six characters of `whitespace_chars`. |
| `Strings.Upper` | include/string.hh:33-37 | `toupper` maps a to z onto A to Z and fixes every other character. |
| `Strings.Lower` | include/string.hh:39-43 | `tolower` maps A to Z onto a to z and fixes every other character. |
| `Strings.CaseRoundTrip` | include/string.hh:33-43 | Both mappings are idempotent and undo each other on letters. |
| `Strings.ToUpper` | include/string.hh:45-47 | The string is rewritten in place with each character upper-cased; its length is kept. |
| `Strings.ToLower` | include/string.hh:49-51 | The string is rewritten in place with each character lower-cased; its length is kept. |
| `Strings.Tokenize` | src/string.cc:5-14 | `tokenize` appends, to the tokens passed in, the maximal non-delimiter runs of `str` in order. The default delimiters are the white space. |
| `Strings.TokensSkip` | src/string.cc:6-11 | Delimiters before a token contribute nothing. |
| `Strings.TokensTake` | src/string.cc:7-12 | A token runs from its first character up to the next delimiter. |
| `Strings.TokensAreWords` | src/string.cc:5-14 | Every token is non-empty and holds no delimiter. |
| `Strings.TokensConcat` | src/string.cc:5-14 | The tokens together are exactly the non-delimiter characters of `str`, in order. |
| `Strings.TokensOfWord` | src/string.cc:5-14 | A word without delimiters is one token. |
| `Strings.TokensSplit` | src/string.cc:5-14 | A delimiter splits the tokens into the tokens to its left followed by those to its right. |
| `Strings.Ljust` | src/string.cc:16-23 | A string of at least `width` is returned unchanged. Otherwise the result has length `width`, with `s` as prefix and spaces after. |
| `Strings.Rjust` | src/string.cc:25-32 | A string of at least `width` is returned unchanged. Otherwise the result has length `width`, with `s` as suffix and spaces before. |
| `Strings.StripLeft` | src/string.cc:34-37 | The result is a suffix of `str`. Everything removed is in `chars`, and the result does not start with a char of `chars`. |
| `Strings.StripRight` | src/string.cc:39-42 | The result is a prefix of `str`. Everything removed is in `chars`, and the result does not end with a char of `chars`. |
| `Strings.StripShape` | src/string.cc:44-46 | `strip` leaves a string no longer than `str` with neither end in `chars`. |
| `Strings.StripFixed` | src/string.cc:44-46 | A string with neither end in `chars` is unchanged by `strip`. |
| `Strings.StripIdempotent` | src/string.cc:44-46 | `strip` is idempotent. |
| `Strings.StripAll` | src/string.cc:34-46 | `strip` gives the empty string exactly when every character is in `chars`. |
| `Strings.StartsWith` | src/string.cc:48-55 | True iff the prefix fits in `[start, end)` and equals the characters from `start`. `end = npos` means the end of `str`. |
| `Strings.JoinLines` | src/string.cc:72-93 | Emitted lines give text that is empty exactly when there are none, and that ends with a newline otherwise. |
| `Strings.WrapLinesFit` | src/string.cc:69-90 | Every emitted line fits in `width`, unless it is a word that could not share a line. |
| `Strings.WrapLinesEmpty` | src/string.cc:67-94 | No line is emitted exactly when there is no word and no line was started. |
| `Strings.WrapAppendsLines` | src/string.cc:57-95 | `wrap` appends nothing exactly when `s` has no tokens. |
| `Strings.WrapFirstWordAlone` | src/string.cc:70-74 | A first word that does not fit after the initial indent is emitted alone. The next word is again a first word, after the subsequent indent. |
| `Strings.PlaceWord` | src/string.cc:70-89 | One loop round places a word as the wrap function prescribes. A word joins the line, with one space except for the first word, only if line + 1 + word fits. Otherwise a line is emitted. |
| `Strings.WrapWords` | src/string.cc:63-94 | The loop and the final flush append to `ret` the lines of the words, each followed by a newline. |
| `Strings.Wrap` | src/string.cc:57-95 | `wrap` appends to `ret`, which it never clears, the wrapped text of the tokens of `s`. |
| `Strings.Fill` | src/string.cc:97-101 | `fill` returns the wrapped text alone. |
| `Strings.Levenshtein` | src/string.cc:103-139 | The table's last cell is the unit-cost edit distance of `a` and `b`. |
| `Strings.FillRow` | src/string.cc:121-137 | Each row of the table is filled with the edit distances of the prefixes. Other rows are unchanged. |
| `Strings.EditDistanceStep` | src/string.cc:130-135 | A cell is the least of above + 1, left + 1 and diagonal + (characters differ). |
| `Strings.EditDistanceEmpty` | src/string.cc:113-119 | The distance to or from the empty string is the length. |
| `Strings.EditDistanceSelf` | src/string.cc:103-139 | A string is at distance 0 from itself. |
| `Strings.EditDistanceBounds` | src/string.cc:103-139 | The distance lies between the difference and the sum of the lengths. |
| `Strings.Hamming` | src/string.cc:141-150 | The count of indices of `a` where `a` and `b` differ, between 0 and `|a|`. |
| `Strings.HammingPrefix` | src/string.cc:145-147 | The count depends on `b` only at the indices of `a`. |
| `Strings.HammingZero` | src/string.cc:141-150 | The count is 0 exactly when `a` is a prefix of `b`. |
| `Strings.EditDistanceAtMostHamming` | src/string.cc:103-150 | For equal lengths, the edit distance is at most the Hamming distance. |
| `Options.PlainOption` | include/options.hh:22-33 | A base option stores its `optional` and `required` values as given, and its `process` does nothing. |
| `Options.StoreOption` | include/options.hh:44-49 | A store option requires one value, or none when the value is optional. |
| `Options.BoolOption` | include/options.hh:67-71 | A bool option requires no value and stores `val`. |
| `Options.HelpOption` | include/options.hh:83-85 | A help option takes no value, not even an optional one. |
| `Options.VersionOption` | include/options.hh:97-99 | A version option takes no value, not even an optional one. |
| `Options.Process` | include/options.hh:33-103 | A store option leaves its target unchanged with no value and takes the first value otherwise. A bool option stores `val`. Help and version always signal. |
| `Options.StoreArgument` | include/options.hh:111-132 | A positional argument takes between one and one token. |
| `Options.TokenKinds` | src/options.cc:157-167 | At most one of long option, short option and end of options holds for a token. A token of two or more characters starting with '-' is one of them. |
| `Options.LookupShort` | src/options.cc:169-177 | The result is the first option with that short name, or "Invalid option!" when there is none. |
| `Options.Parser.FindShort` | src/options.cc:169-177 | The loop returns `LookupShort` of the registered options. |
| `Options.LookupLong` | src/options.cc:179-199 | A found option's long name starts with `name`. The errors are "Invalid option!" and "Ambiguous option!". |
| `Options.LookupLongInvalid` | src/options.cc:179-199 | "Invalid option!" exactly when no long name starts with `name`. |
| `Options.LookupLongUnique` | src/options.cc:179-199 | The only long name starting with `name` is found. |
| `Options.LookupLongRest` | src/options.cc:185-198 | A candidate with no later prefix match is returned at the end. |
| `Options.LookupLongExact` | src/options.cc:183-184 | An exact match wins if no earlier option matched exactly and at most one matched as a prefix. |
| `Options.LookupLongAmbiguous` | src/options.cc:179-199 | "Ambiguous option!" exactly when a second prefix match comes before any exact match. |
| `Options.Parser.FindLong` | src/options.cc:179-199 | The loop returns `LookupLong` of the registered options. |
| `Options.InlineCount` | src/options.cc:202-205 | An inline value counts only for an option without optional values. |
| `Options.CollectArgs` | src/options.cc:201-214 | On success, the values are the inline ones followed by the next argv tokens taken. Inline plus taken equals the required count. It fails, naming the option, exactly when the inline count exceeds it or argv runs out. |
| `Options.Parser.Collect` | src/options.cc:201-214 | The loop returns `CollectArgs`. |
| `Options.Fire` | include/options.hh:81-104 | Processing ends the run with help or version exactly for those options. Otherwise it records the option's reaction. |
| `Options.LongOption` | src/options.cc:216-226 | A long option never moves the argv position backwards or past the end. |
| `Options.LongOptionInline` | src/options.cc:216-226 | For `name=v` with no '=' in `name` after its first character, `name` is looked up. A failed lookup stops the parse with its message. Otherwise the option's values are collected with `v` as the single inline value, whatever `v` holds, and processed. |
| `Options.LongOptionBare` | src/options.cc:216-226 | A long option with no '=' after its first character is looked up whole, and its values are collected with no inline value. |
| `Options.Parser.ParseLong` | src/options.cc:216-226 | The name ends at the first '=' from the second character, and the rest is the single inline value. The result is `LongOption`. |
| `Options.ShortCluster` | src/options.cc:228-244 | A short cluster never moves the argv position backwards or past the end. |
| `Options.Parser.ParseShort` | src/options.cc:228-244 | Value-less options in a cluster are processed in turn. The first that takes values gets the rest of the cluster and ends it. The result is `ShortCluster`. |
| `Options.ShortClusterHandOff` | src/options.cc:228-244 | When the options at `cluster[..k]` take no values and are not help or version, and the option at `cluster[k]` takes values, those options are processed in order. The option at `k` then gets the rest of the cluster as its single inline value, or none when `k` is last, and the cluster ends. This holds whatever characters follow `k`. |
| `Options.ShortClusterFlags` | src/options.cc:230-234 | A cluster of value-less options processes each in order and consumes no argv tokens. |
| `Options.ParseStep` | src/options.cc:256-276 | Each token moves the argv position strictly forward, unless it ends the parse. |
| `Options.Parser.ParseToken` | src/options.cc:256-276 | One round of `parse`'s loop is `ParseStep`. |
| `Options.Finish` | src/options.cc:279-281 | The parse fails at the end exactly when the current slot has fewer tokens than its minimum. |
| `Options.Parser.Parse` | src/options.cc:246-294 | `parse` skips argv[0] and returns `ParseOutcome` of the registered options and arguments. |
| `Options.AfterEndAllPositional` | src/options.cc:260-275 | After "--", every token is positional, whatever it looks like. |
| `Options.OneTokenSlots` | src/options.cc:266-281 | With one-token store arguments, positionals succeed exactly when there is one per slot, each going to its slot in order. |
| `Options.LaterSlotsUnchecked` | src/options.cc:279-281 | A later slot may stay empty although its minimum is 1. |
| `Options.CountChar` | src/options.cc:69-75 | A count appended to the usage becomes the character with that code, mod 256. |
| `Options.Usage` | src/options.cc:51-79 | Equal counts give the name alone. 0 to SIZE_MAX gives "[name]*". Otherwise each count is one character, not its digits. |
| `Options.GetUsage` | src/options.cc:51-79 | The appending code, including its loop for equal counts, returns `Usage`. |
| `Options.UsageCountsAsCharacters` | src/options.cc:68-76 | A maximum of 10 shows as a newline character. |
| `Options.HelpHead` | src/options.cc:16-39 | The option column starts with two spaces, then "-c" or four spaces. |
| `Options.HelpColumn` | src/options.cc:41-45 | The column is padded to `cw`, or followed by four spaces when it is already as wide. The description never touches it. |
| `Options.OptionHelp` | src/options.cc:15-48 | The help line is the description wrapped to `lw`, after the column and indented by `cw`. |
| `Options.ArgumentHelp` | src/options.cc:81-93 | An argument's help wraps its description after its column. Without a description, it wraps the column text to `cw`. |
| `Options.Parser.constructor` | include/options.hh:167-171 | A new parser holds help ('?', "help") and then version ('v', "version"), and no arguments. |
| `Options.Parser.AddOption` | include/options.hh:179 | The option is appended; the order is kept. |
| `Options.Parser.AddArgument` | include/options.hh:180 | The argument is appended; the order is kept. |
| `Options.Parser.AddStoreOption` | include/options.hh:197-201 | A store option is appended. |
| `Options.Parser.AddBoolOption` | include/options.hh:208-211 | A bool option is appended. |
| `Options.Parser.AddStoreArgument` | include/options.hh:203-206 | A store argument is appended. |
| `Options.HelpFirst` | src/options.cc:246-288 | With help registered first, "--help" or "-?" as the first token requests help, whatever follows. |
| `Options.HelpWithValue` | src/options.cc:201-214 | "--help=x" fails with "Wrong number arguments for given option: help". |
| `Options.RandomLinesParser` | src/random-lines.cc:16-19 | random-lines registers help, version, -n/--num and -N/--max with optional values, and -s/--seed. |
| `Options.NumInCluster` | src/options.cc:228-244 | "-n5" sets num to "5". |
| `Options.NumAfterEquals` | src/options.cc:216-226 | "--num=5" sets num to "5". |
| `Options.NumNotFromNextToken` | src/options.cc:201-214 | In "-n 5", the "5" is positional, and random-lines has no slot for it. |
| `Options.SeedTakesNextToken` | src/options.cc:206-210 | "-s 42" takes "42" from the next token. |
| `Options.SeedMissing` | src/options.cc:211-213 | "-s" with nothing after it fails, naming "seed". |
| `Options.SeedPrefixUnique` | src/options.cc:179-199 | "se" starts only "seed". |
| `Options.SeedByPrefix` | src/options.cc:216-226 | "--se=7" sets the seed through the unique prefix. |
| `Functions.Min` | include/functions.hh:10-23 | `min` returns one of its arguments that is at most every argument. |
| `Functions.Max` | include/functions.hh:26-39 | `max` returns one of its arguments that is at least every argument. |
| `Functions.ArgMin` | include/functions.hh:43-57 | `argmin` returns the index of a minimal argument, and every earlier argument is larger. |
| `Functions.ArgMax` | include/functions.hh:60-74 | `argmax` returns the index of a maximal argument, and every earlier argument is smaller. |
| `Functions.Plus.Apply` | include/functions.hh:80-82 | `plus(v)` adds `v` to the element it is applied to and changes no other. |
| `Functions.Multiplies.Apply` | include/functions.hh:89-91 | `multiplies(v)` multiplies the element it is applied to by `v` and changes no other. |
| `Functions.Sqr` | include/functions.hh:98-101 | `sqr` is never negative, is 0 only at 0, and is at least the magnitude otherwise. |
| `Functions.SqrMonotone` | include/functions.hh:98-101 | `sqr` ignores the sign and grows with the magnitude. |

## Left out

- Clock seeding (include/rng.hh:14-36). It hashes `time()`, `clock()` and a static counter. The model takes the result as the `clockSeed` parameter.
- The commented-out constructor of the engine (include/rng.hh:43-68). It is not compiled.
- IEEE rounding of `operator double` and of every floating-point expression in the sampler. The model uses reals, so `raw / 4294967295` is exact.
- The inverse of tempering and the statistical quality of the engine. The model proves the recurrence, not its distribution.
- Method D's `exp`/`log` proposal and acceptance test (include/sequential_sampler.hh:76, 85-116). Its engine draws and its writes to the scratch doubles go with them. It is an oracle constrained by its exit conditions. `top`, which it also overwrites, is reset before Method A's first use and never read by Method D again.
- Sampling.Sampler.Sample: leaves the engine untouched in a Method D call. The source draws from the engine there.
- The uniform-subset guarantee of Vitter's methods. It is probabilistic, not a per-run property.
- The width of `long` in the sampler, and of `int` in `levenshtein_distance` and `hamming_distance`. The model uses unbounded integers, so `13 * n` and the lengths do not overflow.
- `split` and `to_string` (include/string.hh:55-70). They rely on `boost::lexical_cast` and `ostringstream`.
- Printing of usage, help and version, the `COLUMNS` lookup and the `exit` calls (src/options.cc:106-155, 283-292). `parse` returns the outcome instead. `handle_errors` is never read; `error_stream` only receives the printing left out here.
- The parser's destructor (src/options.cc:95-104). Memory is not modelled.
- `boost::lexical_cast` in `process`, with its errors "bad value for option!" and "bad value for argument!". Values are recorded as strings.
- Options.GetUsage: requires that the counts are not both SIZE_MAX. In that case the source's loop never ends, because `++i` wraps around.
- The floating-point functions of include/functions.hh from line 95 on (gamma, beta, erf, factorials, rounding). They are float numerics.
- Sampling.Sampler.constructor: requires `n <= N`. src/random-lines-pairs.cc:21-33 rejects only `n >= N` and then builds the sampler with population `N/2`. For `N/2 < n < N` that call is outside the model, and its positions can run past the population.
- Strings.Upper: models `std::toupper` in the "C" locale only, so only ASCII letters change. Other locales are not modelled.
- Strings.Lower: models `std::tolower` in the "C" locale only, so only ASCII letters change. Other locales are not modelled.
- Strings.ToUpper: a Dafny `char` above 0xFF has no C++ `char` counterpart. The model still maps it, leaving it unchanged. Passing a negative `char` to `std::toupper`/`std::tolower` is undefined behaviour in C++. Chars above 0x7F stand for those values, and the model leaves them unchanged. The same holds for `Strings.ToLower`.
- Functions.Sqr: does not model overflow of the template's integer types; values are unbounded integers. The same holds for `Plus.Apply` and `Multiplies.Apply`.
- The line plumbing of src/random-lines.cc and src/random-lines-pairs.cc. Only the option configuration of random-lines is modelled.

## Findings

| source | as written | input that shows it | evidently intended | confidence | as-written member | corrected member |
|---|---|---|---|---|---|---|
| include/rng.hh:108 | The last word's successor is read as `mt[i + 1]` with `i == 623`, that is `mt[624]`, one past the 624-word array. | Any first draw after seeding, whatever the seed, runs `generate()` and makes the read. | Read `mt[0]`, as the reference MT19937 does. | not executed | `Twist.LastWordAsWrittenAgrees` | `Engine.Rng.Generate` |
| include/sequential_sampler.hh:29-35 | The single-skip branch uses `v_prime` whenever Method A has not run. | A sampler constructed with `n == 1`: the first call reads `v_prime`, which nothing has assigned. random-lines passes `n = 1` by default. | Draw a fresh uniform unless Method D prepared `v_prime`. | not executed | `Sampling.AsWrittenReadsUnsetVPrime` | `Sampling.LastItemSourceCorrected` |
