# UW Markdown Verifier: a model of its numerical and representational core

The UW Markdown standard describes commercial real-estate underwriting records as Markdown files
with structured JSON blocks. Its Python Verifier reads a record, keeps every number's source
location, selects the current blocks, evaluates declared calculations and checks money
procedures. Exact-rational reference procedures beside it define what the binary64 results of
square roots, powers and decimal conversions have to be.

This project models four parts of that repository.

- **Exact binary64 arithmetic.** `Binary64` reads words as exact numbers and proves the rounding
  search correct. On it rest the power oracle (`PowerOracle`), the two-word restoring square root
  (`Fdlibm`), shortest decimals, their text and its layout (`DecimalText`, `ShortestDecimal`,
  `NumberLayout`), and the integer power graph with its operation bound and its error bound
  (`IntegerPower`, `PowerError`).
- **Lossless representations.** `Json`, `Flatten` and `FlattenOrder` cover pointers and cell rows,
  `Bundle` the CSV bundle that encodes and rebuilds a whole model, `BundleAccepted` the converse,
  what the decoder accepts, and `BundleDigest` what the digest covers. `JsonSource` is the parser
  that keeps byte spans and `JsonString` the string literals; `JsonLexis` and `JsonGrammar` give the
  accepted texts by a grammar of their own. `Canonical` is the canonical writer with its round trip
  through that parser, and `CanonicalForm` says which text it is without the writer. `Projection`
  is the selection of current blocks and their history.
- **Money state machines.** `Ladder` and `Waterfall` cover the distribution waterfall from the
  admission of its terms to the terminal true-up, and `WaterfallLaws` what it owes and pays, stated
  on the series and the schedule alone. `Reserves` is the custody ledger and the
  draw/expenditure allocation, `Assembly` the property cash-flow assembly.
- **Procedures and grammars.** `Expressions`, `Precedence` and `Evaluation` cover the
  safe-expression language, `Bisection` the internal rates of return, `Calendar` the day counts.

Integers are unbounded; 32-bit wrap-around, carries and truncation are written out where the
source has them. Money, rates and year fractions are exact reals, and comparisons at the cent are
modelled as such. Procedures that update state in place are methods and classes here, each proved
against a specification function or predicate; the properties of those specifications are lemmas.

Where the source calls a library or another component, that part is a parameter: the SHA-256 hash,
the block schema, the pinned power, and the values and builtins of the expression host. Each module
names the few laws it uses of them. `Flatten` and `Bundle` are stated for any JSON text layer that
reads back what it writes up to the sign of zero; `Canonical.TextIsFaithful` proves that the
canonical writer with the strict parser is one.

Properties that one might expect do not all hold of the code. Where one does not, the exact
condition is proved instead.

- The canonical writer prints both zeros as `0`, while a negative zero is read as itself. Cell rows
  and bundles give back a value word for word if and only if no number in it is negative zero, and
  with zero in its place otherwise (`Flatten.WordForWord`, `Flatten.NegativeZeroLost`,
  `Bundle.RoundTripIff`).
- A parallel builtin section with both an unlabelled and a literal `default` variant is projected
  to one block but selected as two (`Projection.SelectionAgreesIff`, `Projection.CollisionExample`).
- A split after a catch-up can take GP profit back below the target promote within the same row.
  The catch-up is still met at the end of the row if and only if its surplus covers what the later
  splits drain (`Waterfall.CatchUpAfterSplit`, `Waterfall.CatchUpAfterRow`,
  `Waterfall.CatchUpOverRun`, `Waterfall.CatchUpExample`).
- A whole number below 10^21 is printed digit by digit if and only if no shorter decimal rounds to
  its word. Every whole number below 2^53 is; 2^69 is not (`NumberLayout.SafeText`,
  `NumberLayout.WholeTextIff`, `NumberLayout.TwoTo69Rounded`).
- The plain layout of small numbers does not begin at 10^-6 but at the word nearest to it, which
  lies below it (`NumberLayout.PlainLayout`, `NumberLayout.MillionthPlain`).
- 30/360 US year fractions do not always add up over a middle date
  (`Calendar.ThirtyAddsIff` says when).

## Model

| member | source | states |
|---|---|---|
| Binary64.ValueStep | experiments/numerical-0088/power-procedures/reference.py:33-40 | reading a magnitude word as an exact number, the next word is larger by exactly one unit in the last place of the first, across binade and subnormal boundaries |
| Binary64.ValueIncreasing | experiments/numerical-0088/power-procedures/reference.py:33-40 | the exact value is strictly increasing on magnitude words, the word just past the largest finite one included |
| Binary64.ThresholdIsMidpoint | experiments/numerical-0088/power-procedures/reference.py:47-51 | the overflow threshold, MAX plus 2^970, is the midpoint of MAX and the next value of the unbounded 53-bit grid |
| Binary64.ValueOfInf | experiments/numerical-0088/power-procedures/reference.py:47-49 | that next value is 2^1024 |
| Binary64.NearestMagnitudeCorrect | experiments/numerical-0088/power-procedures/reference.py:43-63 | the word found is no farther from the value than any other word up to infinity, and a tie goes to the even word: roundTiesToEven of section 4.3.1 of IEEE 754-2019, overflow included |
| Binary64.NearestUnique | experiments/numerical-0088/power-procedures/reference.py:43-63 | only one word has that property, so it is the definition of the rounded word |
| Binary64.NearestMonotone | experiments/numerical-0088/power-procedures/reference.py:43-63 | a larger value never has a smaller closest word, for any two words that are closest to their values |
| Binary64.NearestMagnitudeMonotone | experiments/numerical-0088/power-procedures/reference.py:43-63 | rounding is monotone from zero through overflow |
| Binary64.NearestBetweenMidpoints | experiments/numerical-0088/power-procedures/reference.py:52-63 | a value strictly between the midpoints on both sides of a word rounds to that word |
| Binary64.NearestOfValue | experiments/numerical-0088/power-procedures/reference.py:43-63 | a word's own value rounds back to the word |
| Binary64.NearestOfRational | experiments/numerical-0088/power-procedures/reference.py:33-63 | reading a finite word, sign and signed zero included, and rounding the result returns the word |
| Binary64.NearestOrder | experiments/numerical-0088/power-procedures/reference.py:43-63 | rounding to finite words preserves order over signed values, however zeros are signed |
| Binary64.RoundToNearest | experiments/numerical-0088/power-procedures/reference.py:43-63 | the binary search over words returns the rounded word with its sign |
| PowerOracle.PowerOrder | experiments/numerical-0088/power-procedures/reference.py:173-193 | for nonnegative numbers, comparing n-th powers compares the numbers, both for order and for equality |
| PowerOracle.LowestExact | experiments/numerical-0088/power-procedures/reference.py:169-170 | the lowest-terms form of a finite word is exact: an integer over a power of two, odd unless that power is one |
| PowerOracle.LowestSign | experiments/numerical-0088/power-procedures/reference.py:66-76 | the numerator carries the sign and the zero of the word |
| PowerOracle.DispatchIsExact | experiments/numerical-0088/power-procedures/reference.py:79-102 | whenever the special-case table answers with a number, its q-th power is exactly the p-th power of the base's magnitude, and it is negative exactly for an odd integral exponent on a negative base (negative zero included) |
| PowerOracle.OracleRoundsTheRoot | experiments/numerical-0088/power-procedures/reference.py:174-193 | for any nonnegative r with r^q equal to the target, the search without roots ends at the word nearest to r, overflow included |
| PowerOracle.OracleBracketsTarget | experiments/numerical-0088/power-procedures/reference.py:174-193 | without assuming a root: the midpoints beside the answer, raised to q, enclose the target, strictly when the answer is odd, and overflow is answered exactly from the threshold on |
| PowerOracle.FractionUnique | experiments/numerical-0088/power-procedures/reference.py:169-170 | a number has one form as an integer over a power of two in lowest terms |
| PowerOracle.FractionIsLowest | experiments/numerical-0088/power-procedures/reference.py:169-170 | the exact exponent is the lowest-terms form of its word |
| PowerOracle.RefusalsExact | experiments/numerical-0088/power-procedures/reference.py:79-172 | the exact condition of every refusal, on the exact base and exponent: nonfinite input if and only if a word is not finite, zero to a negative power if and only if the base is zero and the exponent negative, the fractional domain if and only if the base is negative and the exponent not whole, out of scope if and only if none of these holds, base and exponent are not trivial, and p beyond 256 in magnitude or q beyond 16 |
| PowerOracle.ZeroBaseExact | experiments/numerical-0088/power-procedures/reference.py:90-94 | a zero base gives one for the exponent zero, a negative zero for a negative zero base under an odd whole exponent, and zero otherwise |
| PowerOracle.OraclePowerIsNearest | experiments/numerical-0088/power-procedures/reference.py:159-197 | for every base and exponent in the domain, trivial or within p up to 256 in magnitude and q up to 16, the oracle's word is the nearest one to the exact real power with its sign, and the overflow outcome is given exactly when that power rounds to infinity |
| PowerOracle.OraclePowerBrackets | experiments/numerical-0088/power-procedures/reference.py:174-197 | the same without a root: the midpoints beside the answered magnitude, raised to q, enclose the exact p-th power of the base, strictly for an odd word, with overflow from the threshold on |
| PowerOracle.MathematicalPower | experiments/numerical-0088/power-procedures/reference.py:159-197 | the procedure with its dispatch, scope refusal and two searches returns the oracle's outcome |
| PowerOracle.SearchRoot | experiments/numerical-0088/power-procedures/reference.py:174-193 | the binary search by q-th powers and the exact midpoint comparison returns the oracle's word |
| Fdlibm.OrDisjoint | implementations/python/uwmd_fdlibm.py:166-175 | or-ing words whose set bits do not overlap is addition |
| Fdlibm.Double | implementations/python/uwmd_fdlibm.py:179-183 | one doubling over the two words carries the low word's top bit exactly |
| Fdlibm.Subtract | implementations/python/uwmd_fdlibm.py:203-206 | subtraction over the two words borrows exactly once when the low word is short |
| Fdlibm.Transfer | implementations/python/uwmd_fdlibm.py:161-167 | at most two transfers bring a subnormal into the high word, each multiplying the pair by 2^21 |
| Fdlibm.ShiftUp | implementations/python/uwmd_fdlibm.py:168-175 | at most twenty steps find the leading bit, so the bound asserted in the loop holds, and the shifted pair is the old one times that power of two |
| Fdlibm.NormaliseSubnormal | implementations/python/uwmd_fdlibm.py:160-175 | a subnormal is scaled by a known power of two to a full mantissa and the exponent accounts for it |
| Fdlibm.Normalise | implementations/python/uwmd_fdlibm.py:159-177 | every positive finite input leaves a 53-bit mantissa whose value and exponent are exact |
| Fdlibm.EvenExponent | implementations/python/uwmd_fdlibm.py:178-181 | the mantissa is doubled exactly when the exponent is odd, so input = mantissa times four to the halved exponent |
| Fdlibm.RestoringStep | implementations/python/uwmd_fdlibm.py:186-209 | one trial of a power of two keeps the restoring invariant: target minus root squared, scaled, is the remainder, and stays below twice the root plus the digit, whether the digit is taken or not |
| Fdlibm.HighDigits | implementations/python/uwmd_fdlibm.py:186-194 | the first loop keeps the invariant with 32-bit words and leaves the 22 high root bits |
| Fdlibm.LowDigits | implementations/python/uwmd_fdlibm.py:195-209 | the second loop does so with explicit carry into s0 and borrow from ix0, leaving the 32 low root bits |
| Fdlibm.RootDigits | implementations/python/uwmd_fdlibm.py:184-209 | both loops: Q squared is at most the scaled mantissa, which is below (Q+1) squared, with the exact remainder left in the two words |
| Fdlibm.ProbeIsOne | implementations/python/uwmd_fdlibm.py:211-217 | in round-to-nearest the probes 1 - tiny and 1 + tiny both round to 1, so the last branch of the three is the one taken |
| Fdlibm.RoundDigits | implementations/python/uwmd_fdlibm.py:210-222 | the digit string is rounded up to even exactly when it is odd, with the carry into the high word |
| Fdlibm.RoundedDigits | implementations/python/uwmd_fdlibm.py:210-222 | the remainder is zero exactly for a perfect square, whose root string is then even; and the mantissa R after rounding satisfies (2R-1)^2 < target < (2R+1)^2 |
| Fdlibm.Reassemble | implementations/python/uwmd_fdlibm.py:223-225 | the shifted-together words are the mantissa plus the exponent field, carries included |
| Fdlibm.Assemble | implementations/python/uwmd_fdlibm.py:58-59 | the two words are joined into one |
| Fdlibm.ReassembledValue | implementations/python/uwmd_fdlibm.py:223-225 | the reassembled word has the mantissa's value at the halved exponent, and its two neighbouring midpoints are the odd half-steps beside it |
| Fdlibm.RootIsRounded | implementations/python/uwmd_fdlibm.py:184-225 | from the loops' invariant to the rounded root: the input lies strictly between the squares of the midpoints beside the returned word |
| Fdlibm.PositiveRoot | implementations/python/uwmd_fdlibm.py:159-225 | every positive finite input, subnormals included, is answered with a correctly rounded word |
| Fdlibm.Sqrt | implementations/python/uwmd_fdlibm.py:149-225 | the whole procedure: zeros and positive infinity return themselves, negatives and NaN answer NaN, everything else the rounded root |
| Fdlibm.SqrtIsNearest | implementations/python/uwmd_fdlibm.py:149-225 | for any exact real root of the input's value, the answer is the word nearest to that root |
| DecimalText.DecIsNumeral | implementations/python/uwmd_jcs.py:51 | the decimal spelling of a natural number has no leading zero and denotes it |
| DecimalText.NumeralIsDec | implementations/python/uwmd_source.py:84 | a digit string without a leading zero is the spelling of the number it denotes |
| DecimalText.DecInjective | implementations/python/uwmd_envelope.py:434-435 | different indices have different spellings |
| ShortestDecimal.GridBeats | experiments/numerical-0088/cash-graphs/cash_reference.py:46-53 | of any decimals of a length that round to the word, one of the two grid neighbours the search tries rounds to it and is at least as close |
| ShortestDecimal.SeventeenDigits | experiments/numerical-0088/cash-graphs/cash_reference.py:46-52 | at 17 digits the search always has a candidate, for every finite nonzero word |
| ShortestDecimal.SearchFinds | experiments/numerical-0088/cash-graphs/cash_reference.py:46-58 | the search succeeds, at the first length that has any candidate, and never reaches its refusal |
| ShortestDecimal.ShortestIsShortest | experiments/numerical-0088/cash-graphs/cash_reference.py:29-58 | the answer rounds back to the word, no decimal with fewer digits does, no decimal of the same length that does is closer, and ties go to the even coefficient: the choice section 3.2.2.3 of RFC 8785 takes from ECMAScript Number::toString |
| ShortestDecimal.ShortestByMagnitude | experiments/numerical-0088/cash-graphs/cash_reference.py:41-57 | the answer depends only on the decimal magnitude, however that magnitude was found |
| ShortestDecimal.EstimateIsClose | experiments/numerical-0088/cash-graphs/cash_reference.py:41 | the estimate from the lengths of numerator and denominator is off by at most one power of ten |
| ShortestDecimal.FindMagnitude | experiments/numerical-0088/cash-graphs/cash_reference.py:41-45 | the two correcting loops end at the decimal magnitude of the value |
| ShortestDecimal.TryLengths | experiments/numerical-0088/cash-graphs/cash_reference.py:46-57 | the loop over lengths returns the first length with a candidate |
| ShortestDecimal.SearchLengths | experiments/numerical-0088/cash-graphs/cash_reference.py:41-57 | magnitude and length search together return the shortest decimal before its zeros are stripped |
| ShortestDecimal.StripZeros | experiments/numerical-0088/cash-graphs/cash_reference.py:54-56 | trailing zeros move into the exponent and leave the number unchanged |
| ShortestDecimal.ShortestOf | experiments/numerical-0088/cash-graphs/cash_reference.py:29-58 | nonfinite words refuse, zeros give 0 at exponent 0, everything else the signed shortest decimal |
| ShortestDecimal.NumberToken | experiments/numerical-0088/cash-graphs/cash_reference.py:61-74 | the printed text of that decimal |
| ShortestDecimal.CrossOrder | implementations/python/uwmd_jcs.py:31-35 | comparing cross-multiplied integers compares the exact value with a scaled candidate, and the integer distance is the exact distance times a fixed positive factor |
| ShortestDecimal.QuotientIsFloor | implementations/python/uwmd_jcs.py:36-39 | the integer quotient is the floor of the scaled value |
| ShortestDecimal.CrossMagnitude | implementations/python/uwmd_jcs.py:29-35 | the one-step correction reaches the decimal magnitude plus one |
| ShortestDecimal.CandidateOf | implementations/python/uwmd_jcs.py:38-47 | the cross-multiplied choice between the two neighbours is the exact-rational choice |
| ShortestDecimal.TryPrecisions | implementations/python/uwmd_jcs.py:36-47 | the loop over precisions returns the first length with a candidate, as the exact-rational search does |
| ShortestDecimal.JcsNumber | implementations/python/uwmd_jcs.py:10-62 | for every word the canonical JSON writer returns the same text as the evidence writer, or refuses with it |
| ShortestDecimal.JcsInteger | implementations/python/uwmd_jcs.py:16-23 | an integer is written as the text of the word that holds it, and refused exactly when no finite word does |
| ShortestDecimal.RenderDenotes | experiments/numerical-0088/cash-graphs/cash_reference.py:61-74 | all four layouts (integer, point inside, leading zeros, exponent form) are JSON numbers denoting exactly the decimal, with its sign |
| ShortestDecimal.TextReadsBack | implementations/python/uwmd_jcs.py:10-62 | for every finite word the text is a JSON number whose nearest word is the word it was printed from (the sign of zero is dropped) |
| NumberLayout.PlainLayout | implementations/python/uwmd_jcs.py:51-57 | without an exponent: from the word nearest to 10^-6 up to 10^21 a word is printed plainly, without leading zeros, with a point if and only if its value is not whole, and no zero at the end of the fraction |
| NumberLayout.ScientificLayout | implementations/python/uwmd_jcs.py:58-61 | any other word is printed with one nonzero digit before the optional point, no zero at the end of the fraction, and an explicitly signed exponent without leading zero, at least 21 or at most -7 |
| NumberLayout.SafeText | implementations/python/uwmd_jcs.py:51-57 | a whole value below 2^53 is printed as its decimal numeral after its sign |
| NumberLayout.WholeTextIff | implementations/python/uwmd_jcs.py:51-57 | a whole value below 10^21 is printed as its numeral if and only if no decimal with fewer digits rounds to its word |
| NumberLayout.TwoTo69Rounded | implementations/python/uwmd_jcs.py:51-57 | the failing input: 2^69 is not printed digit by digit |
| NumberLayout.MillionthPlain | implementations/python/uwmd_jcs.py:51-61 | the lower bound of plain printing is not 10^-6: the word nearest to it lies below it and is printed plainly, the word before is not |
| IntegerPower.PowerGraph | experiments/numerical-0088/integer-dispatch/hybrid_reference.py:48-60 | the loop over n, factor and accumulator computes the specified run with its operation count |
| IntegerPower.LoopOperations | experiments/numerical-0088/integer-dispatch/hybrid_reference.py:52-57 | a completed loop performs exactly bit length - 1 + population count operations, an early exit no more |
| IntegerPower.GraphOperations | experiments/numerical-0088/integer-dispatch/hybrid_reference.py:28-58 | with the reciprocal of a negative exponent: exactly the stated bound when completed, no more otherwise |
| IntegerPower.LoopValue | experiments/numerical-0088/integer-dispatch/hybrid_reference.py:48-57 | under any homomorphism to a monoid the loop returns accumulator times the n-th power of factor |
| IntegerPower.GraphValue | experiments/numerical-0088/integer-dispatch/hybrid_reference.py:48-58 | so the graph returns the n-th power of the base, or of its reciprocal |
| IntegerPower.ExactPower | experiments/numerical-0088/integer-dispatch/hybrid_reference.py:48-58 | in exact arithmetic the graph completes with x^p for every nonzero x and p |
| IntegerPower.MultiplySign | experiments/numerical-0088/power-procedures/reference.py:105-111 | the rounded product's sign is the product of signs, zero and infinity included |
| IntegerPower.SignOfPower | experiments/numerical-0088/integer-dispatch/hybrid_reference.py:48-58 | every completed rounded run is negative exactly for a negative base and an odd exponent, underflow to zero included |
| IntegerPower.ExponentBits | experiments/numerical-0088/integer-dispatch/hybrid_reference.py:25-28 | an integral binary64 exponent has at most 1024 bits, of which at most 53 are set |
| IntegerPower.AtMost1077 | experiments/numerical-0088/integer-dispatch/freeze.py:17 | no finite exponent needs more than 1077 basic operations |
| IntegerPower.Attains1077 | experiments/numerical-0088/integer-dispatch/freeze.py:17 | and the bound is attained |
| IntegerPower.HybridPower | experiments/numerical-0088/integer-dispatch/hybrid_reference.py:31-60 | dispatch, fractional refusal, graph and early exit as one procedure |
| IntegerPower.HybridExact | experiments/numerical-0088/integer-dispatch/hybrid_reference.py:31-48 | which outcome is given, on the exact base and exponent: the oracle's answer if and only if the input is outside the domain or trivial, the refusal of fractions if and only if the exponent is not whole, and otherwise the graph on the exponent's magnitude and sign |
| IntegerPower.MultiplyIsNearest | experiments/numerical-0088/power-procedures/reference.py:105-111 | the product of any two finite words is the nearest word to the exact product, ties to even, with its sign, overflow included |
| IntegerPower.DivideIsNearest | experiments/numerical-0088/power-procedures/reference.py:105-111 | and the reciprocal of any finite nonzero word is the nearest word to the exact reciprocal |
| IntegerPower.HybridBound | experiments/numerical-0088/integer-dispatch/hybrid_reference.py:31-60 | every finite result states exactly the bound as its operation count, at most 1077, with the sign of the power; an early exit states at most 1077 |
| PowerError.WithinProduct | experiments/numerical-0088/power-procedures/reference.py:105-111 | when two values are within c and c' roundings of exact ones, their rounded product is within c + c' + 1 of the exact product |
| PowerError.LoopTracks | experiments/numerical-0088/integer-dispatch/hybrid_reference.py:48-57 | the loop, completed without underflow, has multiplied n more factors within their roundings, whatever squares it formed on the way |
| PowerError.PowerWithinRoundings | experiments/numerical-0088/integer-dispatch/hybrid_reference.py:48-58 | a run in which nothing under- or overflows ends within n - 1 relative roundings of 2^-53 of the exact n-th power, or within 2n - 1 for a negative exponent |
| Json.EscStep | implementations/python/uwmd_envelope.py:100-101 | each character of a name is escaped by itself: a tilde as ~0, a slash as ~1, any other as it is (RFC 6901, section 3) |
| Json.EscRoundTrip | implementations/python/uwmd_envelope.py:100-112 | an escaped key holds no slash and no bad escape, and unescaping in the decoder's order returns the key |
| Json.PartsOfPointer | implementations/python/uwmd_envelope.py:104-114 | splitting the pointer of a path returns the path, for keys with slashes and tildes and for empty keys |
| Json.PointerOfParts | implementations/python/uwmd_envelope.py:104-114 | conversely every accepted pointer is the pointer of its parts, so aliases are refused |
| Json.PointerInjective | implementations/python/uwmd_envelope.py:100-114 | different paths have different pointers (RFC 6901, sections 3 and 4) |
| Json.AtNormal | implementations/python/uwmd_jcs.py:26-27 | the normal form of a value (negative zero as zero) has the same paths, with the normal parts at them |
| Json.NormalSame | implementations/python/uwmd_jcs.py:26-27 | a value is its own normal form exactly when no number in it is negative zero |
| Flatten.FlattenCount | implementations/python/uwmd_envelope.py:401-410 | flattening produces each part of the value exactly once, at its own pointer, with its kind and token, and nothing else |
| Flatten.AcceptedIsFlattened | implementations/python/uwmd_envelope.py:413-440 | whatever rows are accepted are, up to token spelling, exactly the flattening of the result in some order: no orphan, gap, alias, duplicate or child of a scalar passes |
| Flatten.FlattenedIsAccepted | implementations/python/uwmd_envelope.py:413-440 | rows that are a flattening in any order, in any accepted spelling of their tokens, are accepted and give the value, up to the sign of its zeros |
| Flatten.UnflattenIff | implementations/python/uwmd_envelope.py:401-440 | both directions: for a value with finite numbers, rows rebuild it up to the sign of zero if and only if they are a permutation of its flattening up to token spelling |
| Flatten.UnflattenFlatten | implementations/python/uwmd_envelope.py:401-440 | any permutation of the flattening of any value with finite numbers rebuilds that value, with negative zero read as zero |
| Flatten.WordForWord | implementations/python/uwmd_envelope.py:401-440 | the rows rebuild the very value they were made from if and only if no number in it is negative zero |
| Flatten.NegativeZeroLost | implementations/python/uwmd_jcs.py:26-27 | the failing input: the rows of negative zero rebuild zero |
| Flatten.FlattenNormal | implementations/python/uwmd_envelope.py:401-410 | a value and its normal form have the same rows |
| Flatten.RebuildNormal | implementations/python/uwmd_envelope.py:413-440 | rebuilding from normal tokens gives the normal form of what is rebuilt from the tokens as received |
| Flatten.FlattenRows | implementations/python/uwmd_envelope.py:401-410 | the recursive writer produces exactly the rows of the flattening, members in UTF-16 order |
| Flatten.SortNames | implementations/python/uwmd_envelope.py:408-409 | the members of an object are visited in UTF-16 order, each once |
| Flatten.UnitsInjective | implementations/python/uwmd_envelope.py:117-118 | different strings have different UTF-16 units, so the order of names has no ties |
| Flatten.UnflattenRows | implementations/python/uwmd_envelope.py:413-440 | the decoder (node map, child lists, recursive build with the numeric sort of indices, orphan count) computes that function |
| FlattenOrder.RowsInOrder | implementations/python/uwmd_envelope.py:401-410 | of two rows of a flattening the earlier one names the part that comes first in the document: a part before everything inside it, items by index, members by the first differing UTF-16 unit of their names |
| FlattenOrder.PathsAscend | implementations/python/uwmd_envelope.py:401-410 | the paths of the rows of any value are strictly increasing in that order |
| JsonString.QuoteReads | implementations/python/uwmd_jcs.py:67-72 | a string written with the short escapes is decoded to itself wherever it stands, and the literal ends where the writing ends |
| JsonString.CharReads | implementations/python/uwmd_source.py:124-132 | each escaped character, control characters included, is read as itself and the reading goes on behind it |
| JsonLexis.DecodeIffSpelled | implementations/python/uwmd_source.py:124-132 | the decoder accepts a literal with a text if and only if the grammar spells it there: characters from U+0020 on but quote and backslash, eight letter escapes, unit escapes that are no surrogates, and surrogate pairs, each with its code point (RFC 8259, section 7) |
| JsonLexis.NumberIffSpelled | implementations/python/uwmd_source.py:84 | the number pattern accepts a lexeme if and only if it has the parts of section 6 of RFC 8259: sign, whole part without leading zero, fraction, exponent |
| JsonLexis.LexemeIsRead | implementations/python/uwmd_source.py:189-193 | and then its sign and magnitude are those of the parts: all digits as one integer, moved by the exponent |
| JsonLexis.LexemeFound | implementations/python/uwmd_source.py:189-193 | every matched lexeme has such parts |
| JsonSource.Utf8Form | implementations/python/uwmd_source.py:111-115 | the bytes of a character are those of section 3 of RFC 3629: one to four, with lead and continuation bytes in their ranges and the code point as their payload |
| JsonSource.LexemeIsNumber | implementations/python/uwmd_source.py:189-193 | what the number pattern matches is a lexeme of the JSON number grammar |
| JsonSource.ValueInOrder | implementations/python/uwmd_source.py:141-198 | the numbers met while parsing a value follow one another in the text without overlap, between the value's start and its end |
| JsonSource.ValueFaithful | implementations/python/uwmd_source.py:141-198 | each path below the parsed value holds a number exactly when one token has that path, and then the token's lexeme rounds to that number |
| JsonSource.BytesBetween | implementations/python/uwmd_source.py:111-115 | the running byte positions are the lengths of the encoded prefixes, strictly increasing, so a slice between two of them is the encoding of the characters between |
| JsonSource.SourceTokens | implementations/python/uwmd_source.py:99-207 | on every accepted input each token's byte span extracts exactly its lexeme at the given offset despite multibyte text, its pointer resolves in the value to the number the lexeme rounds to, spans are increasing and disjoint, and tokens are in bijection with number leaves |
| JsonSource.Parser.constructor | implementations/python/uwmd_source.py:116-118 | the cursor starts at the beginning with no tokens |
| JsonSource.Parser.Whitespace | implementations/python/uwmd_source.py:120-122 | the cursor moves past exactly the JSON white space |
| JsonSource.Parser.StringLiteral | implementations/python/uwmd_source.py:124-132 | a string is decoded and the cursor moves past it, or the parse refuses as the grammar does |
| JsonSource.Parser.Delimiter | implementations/python/uwmd_source.py:134-139 | white space and the expected delimiter are consumed, or refused |
| JsonSource.Parser.NumberLiteral | implementations/python/uwmd_source.py:189-198 | one token is appended with the pointer, lexeme and span; nonfinite numbers refuse |
| JsonSource.Parser.Value | implementations/python/uwmd_source.py:141-198 | the recursive cursor parser returns the grammar's value or refusal, ends at the grammar's end and appends exactly the grammar's numbers |
| JsonSource.Parser.Members | implementations/python/uwmd_source.py:152-170 | object members, with duplicate decoded names refused |
| JsonSource.Parser.Items | implementations/python/uwmd_source.py:171-184 | array items, each under its own index |
| JsonSource.ParseJsonSource | implementations/python/uwmd_source.py:99-207 | the whole document, with trailing content refused, yields the value and the token list of the specification |
| Canonical.WordReadsBack | implementations/python/uwmd_jcs.py:10-62 | the text of a finite word, wherever it stands in a document, is matched as one number lexeme that rounds to the word, the sign of zero dropped |
| Canonical.ReadWrite | implementations/python/uwmd_jcs.py:65-95 | parsing the canonical text of any value with finite numbers and admitted depth returns the value, with negative zero read as zero: strings with escapes, numbers in all four layouts, members in UTF-16 order |
| Canonical.WriteNormal | implementations/python/uwmd_jcs.py:65-95 | the canonical text does not tell negative zero from zero |
| Canonical.SourceIsLawful | implementations/python/uwmd_jcs.py:67-72 | the quoting and decoding of strings keep the law that the canonical writer and the parser need |
| Canonical.TextIsFaithful | implementations/python/uwmd_envelope.py:54-86 | the law the cell rows ask of their codec holds of the canonical writer with the strict parser; it is proved, not assumed |
| JsonGrammar.SpelledIsParsed | implementations/python/uwmd_source.py:99-207 | every spelling of a syntax tree, with any run of the four white-space characters around every token, with distinct decoded names in each record, finite numbers and at most 200 levels, is parsed to what the tree means |
| JsonGrammar.ParsedIsSpelled | implementations/python/uwmd_source.py:99-207 | conversely whatever is parsed is such a spelling |
| JsonGrammar.AcceptedIffSpelled | implementations/python/uwmd_source.py:99-207 | the parser accepts a text with a value if and only if the grammar spells the whole text with that value |
| JsonGrammar.WhiteSpaceIsFree | implementations/python/uwmd_source.py:85-122 | texts that differ only in the white space around their tokens are both admitted or both not, and are parsed to the same value |
| CanonicalForm.SmallerIff | implementations/python/uwmd_envelope.py:117-118 | the order of names is by the first differing UTF-16 unit, a proper prefix first |
| CanonicalForm.UnitsOfChar | implementations/python/uwmd_envelope.py:117-118 | a character of the first plane is one unit, any other a high and a low surrogate |
| CanonicalForm.OneSpelling | implementations/python/uwmd_jcs.py:65-95 | canonical trees with one meaning have one spelling |
| CanonicalForm.WrittenIffCanonical | implementations/python/uwmd_jcs.py:65-95 | the text written for a value is the one spelling of a canonical tree that means its normal form: no white space, the shortest escapes, each number as the text of its word, each name before all later ones (section 3.2 of RFC 8785) |
| Bundle.RefInjective | implementations/python/uwmd_envelope.py:206-254 | different places of a model have different references |
| Bundle.RowsOfCount | implementations/python/uwmd_envelope.py:524-527 | grouping the value rows by block and scope keeps every row's multiplicity |
| Bundle.RowsOfTable | implementations/python/uwmd_envelope.py:469-473 | the value rows grouped for a block and scope are exactly the flattening of that scope, and empty for a place without a block |
| Bundle.EntryShape | implementations/python/uwmd_envelope.py:257-261 | a valid block is recognised as one, and a map of variants never is, whatever its labels |
| Bundle.PermutedCovers | implementations/python/uwmd_envelope.py:539 | the order of the block table carries no information that the decoder needs |
| Bundle.SortSorts | implementations/python/uwmd_envelope.py:534-539 | sorting by collection rank, section units, ordinal and reference yields the order placement relies on |
| Bundle.PutHolds | implementations/python/uwmd_envelope.py:539-577 | adding a block to what has been read keeps the partial model a restriction of the encoded one |
| Bundle.Places | implementations/python/uwmd_envelope.py:539-577 | for a valid block whose predecessors are in place, every check of the decoder passes and exactly that block is added: sections with and without variants, logs, single and variant extensions, histories |
| Bundle.PlacesAll | implementations/python/uwmd_envelope.py:539-577 | over any number of sorted rows |
| Bundle.StartsAtBeginning | implementations/python/uwmd_envelope.py:515-523 | the empty-history descriptors decode to the model with only its empty histories |
| Bundle.ProseReadBack | implementations/python/uwmd_envelope.py:528-532 | the prose table in any order restores each block's prose |
| Bundle.HoldingsReadBack | implementations/python/uwmd_envelope.py:533-583 | all block, value and prose rows, in any order, rebuild the collections, and the descriptors agree with the canonical ones |
| Bundle.AllRead | implementations/python/uwmd_envelope.py:579-581 | once every reference has been read, nothing of the model is missing and nothing is added |
| Bundle.RoundTrip | implementations/python/uwmd_envelope.py:462-586 | for every model that validation accepts, decoding its tables, each shuffled in any way, returns the stamped model, with negative zero read as zero: variant maps and single blocks, nullable extension variants, ordinals, empty histories and extra members |
| Bundle.RoundTripIff | implementations/python/uwmd_envelope.py:462-586 | the decoded model is the stamped model word for word if and only if no number in it is negative zero |
| Bundle.PlainRoundTrip | implementations/python/uwmd_envelope.py:462-586 | a model without negative zeros comes back as it was |
| Bundle.EncodedNormal | implementations/python/uwmd_envelope.py:462-482 | a model and its normal form have the same tables |
| Bundle.ModelJsonNormal | implementations/python/uwmd_envelope.py:92-97 | the digested value of the normal form is the normal form of the digested value, so both have the same digest |
| Bundle.ValidNormal | implementations/python/uwmd_envelope.py:292-308 | validation does not tell a model from its normal form, given a schema that compares numbers as numbers |
| Bundle.EmptyReadBack | implementations/python/uwmd_envelope.py:465-466 | the JSON cell of the empty histories reads back to their ordered paths |
| Bundle.ExtraReadBack | implementations/python/uwmd_envelope.py:464-466 | the JSON cell of the other members reads back to them |
| Bundle.ReadProseTable | implementations/python/uwmd_envelope.py:528-532 | the loop refuses a duplicate or misnamed prose row and otherwise builds the prose map |
| Bundle.PlaceBlocks | implementations/python/uwmd_envelope.py:539-577 | the placement loop stops at the first refusal and otherwise returns the placed model |
| Bundle.CheckModel | implementations/python/uwmd_envelope.py:292-308 | the checks, block by block, accept exactly the valid models |
| Bundle.EncodeModel | implementations/python/uwmd_envelope.py:462-482 | the encoder as it runs writes the tables of exactly the valid models and refuses the others |
| Bundle.CheckDescriptors | implementations/python/uwmd_envelope.py:582-583 | comparing with the descriptors of one listing decides agreement with any |
| Bundle.DecodeTables | implementations/python/uwmd_envelope.py:504-586 | the decoder as it runs, check after check, returns the specified model or refusal |
| Bundle.NamesInOrder | implementations/python/uwmd_envelope.py:219 | the section names are visited each exactly once |
| Bundle.ListVariants | implementations/python/uwmd_envelope.py:225-226 | the variants of a section in the order of their names, each once |
| Bundle.ListGroup | implementations/python/uwmd_envelope.py:219-253 | one entry or history of a collection is listed completely, each place once |
| Bundle.ListCollection | implementations/python/uwmd_envelope.py:219-253 | a collection is listed completely, each place once |
| Bundle.ListBlocks | implementations/python/uwmd_envelope.py:206-254 | the enumeration of a model's blocks covers every occupied place exactly once |
| BundleAccepted.RowPut | implementations/python/uwmd_envelope.py:549-577 | a placed row puts its block at exactly the place its reference names and changes no other place |
| BundleAccepted.EmptiesAgree | implementations/python/uwmd_envelope.py:515-523 | in an accepted bundle the empty-collection descriptors are exactly those of the empty histories of the model, in order |
| BundleAccepted.ScopeAgrees | implementations/python/uwmd_envelope.py:544 | the rows received for a block and scope are, respelled, those of its members, each as often |
| BundleAccepted.ValuesAgree | implementations/python/uwmd_envelope.py:524-544 | the whole value table received is, respelled, a permutation of the one encoded: no row unread, none made up |
| BundleAccepted.ProseAgree | implementations/python/uwmd_envelope.py:528-548 | and so is the prose table |
| BundleAccepted.SortRedumped | implementations/python/uwmd_envelope.py:578-583 | sorting does not change which descriptors are compared |
| BundleAccepted.AcceptedIsEncoded | implementations/python/uwmd_envelope.py:462-586 | the converse of the round trip, for any codec: whatever tables are accepted are, in the spelling of the writer, a permutation table by table of the encoding of the returned model, which is valid and carries its own digest |
| BundleAccepted.DecodedAgain | implementations/python/uwmd_envelope.py:462-586 | what was decoded, encoded and decoded again is the same model, up to the sign of zero |
| BundleAccepted.TextRoundTrip | implementations/python/uwmd_envelope.py:462-586 | the round trip and its exact condition with the canonical writer and the strict parser in place of a codec with laws |
| BundleDigest.DigestedBlock | implementations/python/uwmd_envelope.py:92-97 | for every occupied place the digested value has, at the path of the place's reference, exactly the block: its annotation, its content with _meta, its prose if and only if it has one, and its other members |
| BundleDigest.DigestedMembers | implementations/python/uwmd_envelope.py:92-97 | the frontmatter and every other member of the model stand in the digested value as they are |
| BundleDigest.OuterMembers | implementations/python/uwmd_envelope.py:92-97 | the parts of a model are digested under their own names, beside the other members |
| BundleDigest.BlockInjective | implementations/python/uwmd_envelope.py:92-97 | two blocks with one digested value are the same block |
| BundleDigest.DigestedOnce | implementations/python/uwmd_envelope.py:92-97 | two valid models with one digested value agree in everything but generation time, generator and digest |
| BundleDigest.EqualDigests | implementations/python/uwmd_envelope.py:92-97 | given a hash that separates the two preimages, valid models have one digest if and only if they are the same up to the sign of zero, generation time, generator and digest |
| BundleDigest.OneDigestOneModel | implementations/python/uwmd_envelope.py:504-586 | so two accepted bundles that state one digest carry the same model |
| BundleDigest.ModelStorable | implementations/python/uwmd_envelope.py:292-308 | every number that is digested is finite and the nesting is admitted, so the preimage can be written |
| BundleDigest.SectionStated | implementations/python/uwmd_envelope.py:209-213 | in the digested value of a valid model every block states one nonempty section twice, in its annotation and in the metadata of its content, and outside the logs it is the section its path names |
| BundleDigest.FrontmatterStated | implementations/python/uwmd_envelope.py:292-308 | the frontmatter of a valid model names the deal and the format version |
| BundleDigest.RowDescribes | implementations/python/uwmd_envelope.py:206-254 | each row of the block table of a valid model, told from its path and its block's annotation: collection, stated section, variant, ordinal, state and mode |
| Projection.VariantsShown | implementations/python/uwmd_reader.py:20-52 | a record shows a section as variants if and only if it is one of seven, or some current block of it has a role and some current block of it a label |
| Projection.ShownUnder | implementations/python/uwmd_reader.py:61-87 | where a record shows each current block: sections named x_ among the extensions and the others apart, a parallel section by label, an unlabelled block of a builtin one under the label default |
| Projection.OtherSectionsInert | implementations/python/uwmd_reader.py:46-88 | replacing a block of other sections by another such block changes neither the routing nor the selection of a section |
| Projection.HistoryInert | implementations/python/uwmd_reader.py:55-60 | a superseded block at the end changes no current block and is only listed, last, in its history or log |
| Projection.ActiveBlocks | implementations/python/uwmd_validation_selection.py:26-28 | the active blocks of a section, in physical order, each once |
| Projection.CurrentBlocks | implementations/python/uwmd_validation_selection.py:36-47 | the declarative selection, each selected block once, externalized blocks only when asked for |
| Projection.LastBlocks | implementations/python/uwmd_validation_selection.py:36-47 | the selection before that filter: the last active block, or the last of each variant label |
| Projection.CurrentPeers | implementations/python/uwmd_validation_selection.py:44-47 | for a parallel section the last active block of each variant label |
| Projection.CurrentIsLast | implementations/python/uwmd_reader.py:55-87 | the one-pass overwrite leaves under each key the last active block with that key |
| Projection.LastIsThere | implementations/python/uwmd_reader.py:55-87 | that block is active, has the key, and no later active block does |
| Projection.EveryBlockOnce | implementations/python/uwmd_reader.py:46-88 | every physical block lands exactly once among sections, extensions, append lists and superseded, under its own section and key; so the accounting checks of the envelope never fail |
| Projection.SelectionAgreesIff | implementations/python/uwmd_validation_selection.py:36-47 | for every non-append section the declarative selection and the projection choose the same blocks if and only if the section does not collide an unlabelled with a literal default variant |
| Projection.CollisionExample | implementations/python/uwmd_reader.py:78-83 | two blocks that do collide: the selection keeps both, the projection one |
| Projection.ReaderProjection | implementations/python/uwmd_reader.py:46-88 | the in-place procedure (search, remove, append, sort) produces a record that shows the routed blocks, histories in event order |
| Projection.TakeOut | implementations/python/uwmd_reader.py:68-71 | the prior item of a nullable identity is found and removed, and only it |
| Projection.PlaceExtension | implementations/python/uwmd_reader.py:61-77 | an extension block replaces its peer, which is returned for history, and the items stay in order |
| Projection.PlaceSection | implementations/python/uwmd_reader.py:78-87 | a section block replaces its peer under the default key or label |
| Projection.BeforeStrict | implementations/python/uwmd_envelope.py:117-118 | the order on nullable labels is strict and total |
| Projection.ItemsUnique | implementations/python/uwmd_envelope.py:718 | an ordered list of labelled blocks is determined by the blocks it holds |
| Projection.EnvelopeIdentity | implementations/python/uwmd_envelope.py:708-711 | the key a block is chosen under, with the builtin default |
| Projection.ChooseBlocks | implementations/python/uwmd_envelope.py:700-715 | the envelope's own pass keeps the same current blocks, histories and logs |
| Projection.SortPeers | implementations/python/uwmd_envelope.py:718 | sorting the peers lists each once in order of label |
| Projection.EnvelopeEntry | implementations/python/uwmd_envelope.py:716-720 | one section is written in its single or parallel form |
| Projection.SemanticEnvelope | implementations/python/uwmd_envelope.py:695-721 | the two-phase envelope procedure produces a record that shows the same routed blocks |
| Projection.ProjectionsAgree | implementations/python/uwmd_reader.py:46-88 | so the reader's record and the envelope's record are equal, histories and extension order included |
| Ladder.QuantizeIsClosest | implementations/python/uwmd_numeric.py:22-30 | within the safe integers a grid step is the rounded amount if and only if it is the closest step, a tie going away from zero; beyond them rounding changes nothing |
| Ladder.QuantizeMonotone | implementations/python/uwmd_numeric.py:12-30 | rounding half away from zero to a grid never reverses an order (over exact reals) |
| Ladder.WaterfallTerms | implementations/python/uwmd_validation_structure.py:133-203 | the scan reports no issue if and only if the ladder is admitted: split of equity, order of tiers without repeats, each tier's own terms, rising hurdles, final unbounded split |
| Ladder.TierTerms | implementations/python/uwmd_validation_structure.py:145-196 | one tier passes exactly when its own terms hold and its hurdles exceed the previous ones |
| Ladder.PreferredTerms | implementations/python/uwmd_validation_structure.py:157-163 | rate inside (0,1) |
| Ladder.CatchUpTerms | implementations/python/uwmd_validation_structure.py:164-171 | share a fraction above a target promote inside (0,1) |
| Ladder.ShareTerms | implementations/python/uwmd_validation_structure.py:173-178 | shares are fractions that sum to one within the tolerance |
| Ladder.SplitTerms | implementations/python/uwmd_validation_structure.py:172-195 | shares, hurdles above the previous ones on their grids, positive share under a hurdle, mode only with two hurdles |
| Ladder.HurdlesIncrease | implementations/python/uwmd_validation_structure.py:180-191 | in an admitted ladder the hurdles rise strictly from tier to tier, adjacent or not, although only rounded neighbours are compared |
| Waterfall.PaySound | implementations/python/uwmd_waterfall.py:66-78 | one payment keeps both records sound (unreturned = contributions - returned, nothing negative) and moves no more and no less than it hands out, up to the share tolerance |
| Waterfall.WalkIsSound | implementations/python/uwmd_waterfall.py:46-78 | so does the walk over any number of tiers, for every amount |
| Waterfall.NothingLeft | implementations/python/uwmd_waterfall.py:64-67 | a ladder that ends in an unbounded split leaves no cash |
| Waterfall.RunInBalance | implementations/python/uwmd_waterfall.py:28-79 | over every prefix of every run: all money received is in the distributions, contributions equal what was paid in, and the schedule totals equal the distributions |
| Waterfall.Conservation | implementations/python/uwmd_waterfall.py:14-105 | for admitted ladders over whole runs: balances nonnegative, unreturned = contributions - roc, each party's distributions equal its schedule total, and profit equals the sum of the series within .0001 of the amounts moved, exactly when shares sum to one |
| Waterfall.RowPaidOut | implementations/python/uwmd_waterfall.py:44-79 | every positive row adds one schedule entry, dated with the row, whose cells sum to the amount (within the tolerance) |
| Waterfall.AdmittedIsUsable | implementations/python/uwmd_validation_structure.py:138-193 | an admitted ladder meets every assumption of the allocator, with tolerance .0001, or zero when its shares sum to one |
| Waterfall.BalanceFalls | implementations/python/uwmd_waterfall.py:21-27 | paying the LP on a date lowers its hurdle balance on that date by exactly the payment |
| Waterfall.EmTarget | implementations/python/uwmd_waterfall.py:61-62 | a payment reaches the multiple hurdle if and only if it is at least the capacity; at a positive full capacity distributions equal the multiple of contributions exactly |
| Waterfall.IrrTarget | implementations/python/uwmd_waterfall.py:63-64 | the same for the rate hurdle: at full positive capacity the balance at that rate and date is zero |
| Waterfall.CatchUpTarget | implementations/python/uwmd_waterfall.py:53-57 | the same for the catch-up: at full positive capacity GP profit is the target promote times total profit |
| Waterfall.PastTier | implementations/python/uwmd_waterfall.py:46-78 | a tier that leaves cash has reached its target: both hurdles by default, at least one in mode any |
| Waterfall.StaysReached | implementations/python/uwmd_waterfall.py:46-78 | a later tier of the same row does not undo a reached target, provided that after a catch-up it gives the GP at least the target promote of what it pays |
| Waterfall.CatchUpAfterSplit | implementations/python/uwmd_waterfall.py:53-78 | from any ledger, a split leaves a catch-up met if and only if what it drains, its payment times (target promote of both shares less the GP share), is at most the surplus of GP profit over the target promote of all profit |
| Waterfall.KeepsDrainsNothing | implementations/python/uwmd_waterfall.py:53-78 | a split drains nothing, whatever it pays, exactly when its GP share is at least the target promote of both shares |
| Waterfall.CatchUpAfterRow | implementations/python/uwmd_waterfall.py:46-78 | over a whole row: a catch-up followed by splits is met at the end if and only if its surplus when passed covers what the later splits drain |
| Waterfall.DrainedByResidual | implementations/python/uwmd_waterfall.py:46-78 | when only the final unbounded split follows, it drains of exactly the cash that passed the catch-up |
| Waterfall.CatchUpOverRun | implementations/python/uwmd_waterfall.py:28-79 | over whole runs of an admitted ladder: after each paying row its catch-up is met if and only if that surplus covers that drain |
| Waterfall.CatchUpExample | implementations/python/uwmd_waterfall.py:28-79 | the failing input, from contribution to payment: an admitted ladder run over +100 then -50 whose final split leaves GP profit below a target promote of one fifth |
| Waterfall.Priority | implementations/python/uwmd_waterfall.py:46-78 | if cash passes a tier, its target is reached when the walk passes it, and still at the end of the row when the later tiers keep it |
| Waterfall.PriorityOfPayments | implementations/python/uwmd_waterfall.py:28-79 | over whole runs: when a schedule cell pays a tier, every earlier tier whose target the later tiers keep has reached it on that date |
| Waterfall.FullCapacity | implementations/python/uwmd_waterfall.py:46-78 | for every tier and every payment within its capacity: the target is reached if and only if the payment is the whole capacity, so no tier stops short or takes more than its target needs; two hurdles are both required, or the first under any |
| Waterfall.PaidInProportion | implementations/python/uwmd_waterfall.py:49-52 | capital and preferred return are paid in proportion to what each party is owed, and make up the payment |
| Waterfall.TrueUpMeetsFloor | implementations/python/uwmd_waterfall.py:96-104 | gross of tax: a promote that covers the shortfall brings the LP exactly to its floor, or takes nothing when the floor is met, and a smaller promote is handed over whole, for each of the three bases |
| Waterfall.TrueUpNetOfTax | implementations/python/uwmd_waterfall.py:104 | net of tax, clawback and tax make up the gross amount |
| Waterfall.TrueUp | implementations/python/uwmd_waterfall.py:96-104 | the clawback lies between zero and the promote, leaves the GP its capital and preferred return, and, gross of tax, restores the LP's floor if and only if the promote covers the shortfall |
| Waterfall.Party.constructor | implementations/python/uwmd_waterfall.py:17 | a party starts with zero balances and no flows |
| Waterfall.Party.Accrue | implementations/python/uwmd_waterfall.py:32-36 | preferred return accrues by the stated convention; nothing else changes |
| Waterfall.Party.Contribute | implementations/python/uwmd_waterfall.py:39-43 | a contribution raises unreturned capital and contributions and appends its flow |
| Waterfall.Party.Receive | implementations/python/uwmd_waterfall.py:70-77 | a payment is distributed, appended, and booked against the balance the tier repays |
| Waterfall.RunningBalance | implementations/python/uwmd_waterfall.py:21-27 | the loop computes the discounted balance brought to the date |
| Waterfall.HurdleCapacities | implementations/python/uwmd_waterfall.py:60-64 | the list of capacities has one entry per stated hurdle |
| Waterfall.TierCapacity | implementations/python/uwmd_waterfall.py:48-65 | capacity and shares of every kind of tier, with the mode choosing least or greatest |
| Waterfall.WalkTiers | implementations/python/uwmd_waterfall.py:45-78 | the loop that updates both records in place yields the walk's records and cells |
| Waterfall.AccrueBoth | implementations/python/uwmd_waterfall.py:31-36 | both parties accrue, or neither without a preferred tier |
| Waterfall.GoverningPreferred | implementations/python/uwmd_waterfall.py:19 | the first preferred tier of the ladder governs accrual |
| Waterfall.FinalClawback | implementations/python/uwmd_waterfall.py:96-104 | the clawback of each basis, net of tax when stated |
| Waterfall.AllocateWaterfall | implementations/python/uwmd_waterfall.py:14-105 | the whole allocation returns the schedule and outcomes of the specified run |
| WaterfallLaws.OwedOverRun | implementations/python/uwmd_waterfall.py:28-79 | over every run of contributions, payments and idle rows, stated on series and schedule alone: a party's capital is what it lent less what the capital tier repaid, and its preferred return follows the simple or the compounding law |
| WaterfallLaws.SimpleOwed | implementations/python/uwmd_waterfall.py:31-34 | simple: preferred return outstanding and paid is the rate times the time each loan was out, without growth on unpaid return |
| WaterfallLaws.CompoundOwed | implementations/python/uwmd_waterfall.py:31-36 | compounding: return and capital outstanding are every loan grown to the date less every repayment grown to it; for one contribution, the contribution times pow(1 + rate, years) |
| WaterfallLaws.SimplePaid | implementations/python/uwmd_waterfall.py:31-78 | when cash passes the preferred tier, its cells so far have paid each party exactly that simple return |
| WaterfallLaws.CompoundPaid | implementations/python/uwmd_waterfall.py:31-78 | when cash passes it under compounding, the grown repayments are the grown loans less the capital still out |
| WaterfallLaws.TotalsOverRun | implementations/python/uwmd_waterfall.py:28-79 | every total of a party's record is read off its contributions and the cells of the schedule |
| WaterfallLaws.OutcomesFromSchedule | implementations/python/uwmd_waterfall.py:80-89 | so are the stated outcomes of each party |
| WaterfallLaws.PromoteFromSchedule | implementations/python/uwmd_waterfall.py:92-95 | the promote is what the tiers above the preferred return paid the GP, and the profit all that was paid less all that was lent |
| WaterfallLaws.FlowsOverRun | implementations/python/uwmd_waterfall.py:21-27 | at every rate a party's flows grow to what its payments grow to less its contributions, so series and schedule decide every hurdle balance |
| WaterfallLaws.BalanceIsGrown | implementations/python/uwmd_waterfall.py:21-27 | the balance is what the flows grow to, whatever anchor they are discounted to |
| WaterfallLaws.WalkRepays | implementations/python/uwmd_waterfall.py:45-78 | the walk through a ladder books every cell against the balance its tier repays |
| Reserves.AtCentIsClosest | implementations/python/uwmd_numeric.py:12-30 | a whole number of cents is the amount at the cent if and only if it is the closest one, a tie going away from zero |
| Reserves.NetIsDifference | implementations/python/uwmd_reserves.py:179-186 | the net movement is the sum of all contributions less the sum of all draws and releases |
| Reserves.AtCentNear | implementations/python/uwmd_numeric.py:12-30 | rounding to the cent moves an exact amount by at most half a cent, whole cents not at all |
| Reserves.SameCent | implementations/python/uwmd_reserves.py:191-201 | amounts equal at the cent differ by at most a cent, and not at all in whole cents |
| Reserves.MovementIssues | implementations/python/uwmd_reserves.py:115-137 | no issue exactly when movement dates lie in the period, do not decrease, and identities are distinct |
| Reserves.ReserveStructure | implementations/python/uwmd_reserves.py:91-138 | no issue exactly when periods are bounded, ordered without overlap, distinctly named, and name their immediate predecessor when they name one |
| Reserves.EndingBalance | implementations/python/uwmd_reserves.py:179-186 | opening plus contributions minus draws and releases |
| Reserves.VerifyPeriods | implementations/python/uwmd_reserves.py:173-202 | no finding exactly when every stated ending agrees with the computed one and every claimed continuity agrees with the previous ending |
| Reserves.Custody | implementations/python/uwmd_reserves.py:173-202 | across n consecutively linked periods the last stated ending differs from first opening plus net movements by at most (2n-1) cents, and not at all in whole cents, for histories of any length |
| Reserves.MovementsInOrder | implementations/python/uwmd_reserves.py:91-138 | the concatenated movement dates of a structured account never decrease |
| Reserves.PlanIssues | implementations/python/uwmd_reserve_draws.py:90-129 | no finding exactly when draws, expenditure IDs, source addresses and edges are distinct |
| Reserves.DrawTotals | implementations/python/uwmd_reserve_draws.py:258-259 | the running totals per draw are the sums over its edges |
| Reserves.ShareTotals | implementations/python/uwmd_reserve_draws.py:258-260 | and per expenditure |
| Reserves.DrawFindings | implementations/python/uwmd_reserve_draws.py:262-270 | no finding exactly when each draw is fully allocated at the cent |
| Reserves.ShareFindings | implementations/python/uwmd_reserve_draws.py:271-280 | no finding exactly when each share agrees at the cent and does not exceed the gross amount |
| Reserves.VerifyBindings | implementations/python/uwmd_reserve_draws.py:241-286 | the verification passes if and only if the plan is allocated |
| Reserves.BothWays | implementations/python/uwmd_reserve_draws.py:258-260 | summing edges by draw and by expenditure gives the same total |
| Reserves.FundsConserved | implementations/python/uwmd_reserve_draws.py:241-286 | in a verified plan the totals of draws and of funded shares differ by at most a cent per draw and expenditure, not at all in whole cents, and no share exceeds its gross amount |
| Reserves.FundedOnce | implementations/python/uwmd_reserve_draws.py:241-286 | in a verified plan all expenditures together fund no source address beyond its gross amount, and all edges between a draw and an expenditure together are one edge |
| Assembly.OutputOrdered | implementations/python/uwmd_property_cash_flows.py:177 | output rows run by date; on one date lease rows come before supplemental ones, and each kind keeps its source order |
| Assembly.OutputSigns | implementations/python/uwmd_property_cash_flows.py:144-169 | in an assembled plan every row lies in the hold, and every supplemental row has one cell, is dated at the closing that cell names, and has its sign: prices and costs go out, income and the sale come in |
| Assembly.PurchasePaid | implementations/python/uwmd_property_cash_flows.py:150-169 | some output row of an assembled plan is the purchase price, negative and at the acquisition date |
| Assembly.CiteRows | implementations/python/uwmd_property_cash_flows.py:158-161 | an entry's rows are accepted exactly when each exists and no row has been cited before |
| Assembly.ScanCoverage | implementations/python/uwmd_property_cash_flows.py:150-161 | the scan accepts exactly the admitted entries, and its maps then hold every declaration and every cited row |
| Assembly.AllCovered | implementations/python/uwmd_property_cash_flows.py:162 | comparing key sets and counts is equivalent to: every required cell is declared and every supplemental row is cited |
| Assembly.SortRows | implementations/python/uwmd_property_cash_flows.py:177 | sorting by date, kind and source index permutes the rows into that order |
| Assembly.BindRow | implementations/python/uwmd_property_cash_flows.py:183 | one row's ordinal is appended to each of its own cells |
| Assembly.BindCells | implementations/python/uwmd_property_cash_flows.py:178-183 | each cell lists exactly the ordinals bound to it, in order |
| Assembly.CheckShape | implementations/python/uwmd_property_cash_flows.py:104-110 | a plan is refused before its coverage is read exactly when some declaration lists no rows |
| Assembly.CheckDates | implementations/python/uwmd_property_cash_flows.py:144-147 | all dates lie within the hold |
| Assembly.CheckRows | implementations/python/uwmd_property_cash_flows.py:163-169 | closing-slot rows fall on the closing date and amounts have their category's sign |
| Assembly.Assemble | implementations/python/uwmd_property_cash_flows.py:139-194 | assembly succeeds if and only if the plan is admissible, and then the result accounts for both sources |
| Assembly.OutputIsSource | implementations/python/uwmd_property_cash_flows.py:170-181 | every output row is a source row with its date and amount unchanged, lease-up rows bound to their owned cells |
| Assembly.SourceIsOutput | implementations/python/uwmd_property_cash_flows.py:170-181 | every lease row and every supplemental row is output, and no source row is output twice |
| Assembly.CellRowsAt | implementations/python/uwmd_property_cash_flows.py:183 | a cell lists a row exactly when the row is bound to it |
| Assembly.CitedInEntry | implementations/python/uwmd_property_cash_flows.py:150-161 | a row is cited for a cell only by that cell's own entry |
| Assembly.CellsAccountFor | implementations/python/uwmd_property_cash_flows.py:184-191 | for every declared cell, the listed output rows are exactly the outputs of the supplemental rows its entry cites |
| Assembly.EvidenceFound | implementations/python/uwmd_property_cash_flows.py:184-191 | every evidence lookup finds its cell: cells declared by rows and the lease-up cells of each period list at least one output row, zero declarations list none |
| Expressions.ParsedExpression | implementations/python/uwmd_expressions.py:81-158 | whatever the parser accepts is spelled by the grammar, with the tree it returns: left-associative levels, one comparison, one unary sign, right-nested conditional |
| Expressions.SpelledExpression | implementations/python/uwmd_expressions.py:81-158 | conversely every grammar spelling followed by a token that cannot continue it is parsed to its tree |
| Expressions.ParseIffSpelled | implementations/python/uwmd_expressions.py:161-170 | over whole inputs, the parser returns a tree if and only if the grammar spells it by the tokens within the nesting limit |
| Expressions.Unambiguous | implementations/python/uwmd_expressions.py:81-158 | the grammar gives a token list at most one tree |
| Expressions.PrintRoundTrip | implementations/python/uwmd_expressions.py:81-158 | parsing the precedence-aware printing of any grammar tree within the limit returns that tree |
| Expressions.SpelledAdmissible | implementations/python/uwmd_expressions.py:81-158 | every parsed tree is a grammar tree within the nesting limit |
| Expressions.PrintRoundTripIff | implementations/python/uwmd_expressions.py:81-158 | the printing of a tree parses back to it exactly for grammar trees within the limit; for every other tree it does not |
| Expressions.ReprintParses | implementations/python/uwmd_expressions.py:161-170 | whatever was parsed can be printed and parsed again to the same tree |
| Expressions.Parser.constructor | implementations/python/uwmd_expressions.py:43-46 | the parser starts at the first token, at depth zero |
| Expressions.Parser.Accept | implementations/python/uwmd_expressions.py:71-75 | the index moves only past the expected symbol |
| Expressions.Parser.ParseWhole | implementations/python/uwmd_expressions.py:81-93 | an expression with its optional conditional; the depth is restored on every exit |
| Expressions.Parser.BinaryAt | implementations/python/uwmd_expressions.py:95-109 | one precedence level |
| Expressions.Parser.Operators | implementations/python/uwmd_expressions.py:103-108 | the loop over operators of a level, which stops after one comparison |
| Expressions.Parser.PrimaryHere | implementations/python/uwmd_expressions.py:111-124 | parenthesis, number, string or name |
| Expressions.Parser.Named | implementations/python/uwmd_expressions.py:125-158 | literals, calls and references |
| Expressions.Parser.ArgumentList | implementations/python/uwmd_expressions.py:130-138 | arguments up to the closing parenthesis |
| Expressions.Parser.PathAfter | implementations/python/uwmd_expressions.py:139-158 | members and at most one period selector, after a member |
| Expressions.ParseText | implementations/python/uwmd_expressions.py:161-170 | the stateful parser returns the specified tree or refusal, trailing input refused |
| Expressions.Expanded | implementations/python/uwmd_expressions.py:181-193 | replacing a node on the stack by its pushed children keeps the references still to come, and shrinks the stack |
| Expressions.ExpressionReferences | implementations/python/uwmd_expressions.py:173-194 | the explicit stack returns the recursive left-to-right traversal, duplicates kept |
| Precedence.TwoOperators | implementations/python/uwmd_expressions.py:34-109 | for any names and any two of the thirteen operators, in a table of strengths of its own: the stronger binds first, equal strength binds to the left, and two comparisons are refused |
| Precedence.UnaryFirst | implementations/python/uwmd_expressions.py:95-101 | minus and negation take the operand beside them before any binary operator does |
| Precedence.OneUnary | implementations/python/uwmd_expressions.py:96-101 | a second unary operator in a row is refused |
| Precedence.ConditionalsNest | implementations/python/uwmd_expressions.py:81-93 | a conditional is weaker than every operator, and another one in its last branch needs no parentheses |
| Precedence.Words | implementations/python/uwmd_expressions.py:125-129 | true, false and null are literals and every other name is a reference |
| Precedence.NestingLimit | implementations/python/uwmd_expressions.py:81-93 | fewer than 64 pairs of parentheses are read through, 64 or more reach the limit |
| Evaluation.RunAnswers | implementations/python/uwmd_calc.py:260-306 | a run that visits at most 1024 nodes answers the meaning of its tree, a counter-free definition with no order of evaluation, and any other run answers the limit |
| Evaluation.SmallTreesAnswer | implementations/python/uwmd_calc.py:260-306 | so every tree of at most 1024 nodes is answered with its meaning |
| Evaluation.Conditionals | implementations/python/uwmd_calc.py:285-291 | a true condition selects the first branch, a false one the second, null neither |
| Evaluation.ShortCircuits | implementations/python/uwmd_calc.py:292-304 | the right operand of a settled logical operator does not matter, even when it fails; otherwise it is the answer |
| Evaluation.DeMorgan | implementations/python/uwmd_calc.py:276-304 | negation exchanges the logical operators, for nulls, failures and type errors alike |
| Evaluation.NullPropagates | implementations/python/uwmd_calc.py:228-229 | null passes through every strict operator but the equalities |
| Evaluation.Calls | implementations/python/uwmd_calc.py:269-275 | a call of a permitted, known name is the builtin on the values of all its arguments in order, or the first failure among them; the name is checked before any argument |
| Evaluation.Equalities | implementations/python/uwmd_calc.py:219-227 | != is the negation of ==, and both answer a boolean for null operands too |
| Evaluation.StrictOperators | implementations/python/uwmd_calc.py:228-252 | every other operator is applied to the left and the right value in this order, the left failure first |
| Evaluation.UnaryOperators | implementations/python/uwmd_calc.py:276-284 | minus is the host's, negation is for booleans, and null passes through both |
| Evaluation.ResolvedAreListed | implementations/python/uwmd_calc.py:260-306 | the references a run resolves, on success or refusal, form a subsequence of the inventory |
| Evaluation.SameRun | implementations/python/uwmd_calc.py:260-306 | a run depends only on the references it resolved: any resolver agreeing on those gives the same answer, counter and trace |
| Evaluation.StrictResolvesAll | implementations/python/uwmd_calc.py:260-306 | a successful run of a tree without conditionals and logical operators resolves the whole inventory and visits every node once |
| Evaluation.Execution.constructor | implementations/python/uwmd_calc.py:257-258 | a run starts with no visited node |
| Evaluation.Execution.Evaluate | implementations/python/uwmd_calc.py:260-263 | the node counter and its limit |
| Evaluation.Execution.EvaluateNode | implementations/python/uwmd_calc.py:264-306 | every node kind, with null propagation, short circuits and evaluation order left to right |
| Evaluation.Execution.EvaluateArguments | implementations/python/uwmd_calc.py:269-275 | arguments are run in order after the name is checked |
| Bisection.GrowthIsRate | implementations/python/uwmd_cash_flows.py:16-24 | an outlay repaid with its growth at a rate over a time has present value zero at that rate |
| Bisection.PeriodicIsDated | implementations/python/uwmd_calc_builtins.py:43-48 | the periodic value, which divides by growths, is the dated value of amounts one period apart, which multiplies by discounts |
| Bisection.PeriodicNpv | implementations/python/uwmd_calc_builtins.py:43-48 | the sum of amounts over their growth, for every rate whose growths are not zero |
| Bisection.Xnpv | implementations/python/uwmd_cash_flows.py:16-24 | refuses rates of -1 and below, otherwise the discounted sum |
| Bisection.WidthsAtEnd | implementations/python/uwmd_calc_builtins.py:53-65 | the half width of [-0.999, 10] first falls below 1e-12 after 43 halvings |
| Bisection.HalfBracket | implementations/python/uwmd_calc_builtins.py:66-69 | keeping the half by the sign of the product keeps a sign change, with the residual carried along |
| Bisection.Bisect | implementations/python/uwmd_calc_builtins.py:54-70 | for every function: refuses exactly without a sign change at the ends, never reaches the 200-step refusal, ends within 44 steps, and the rate has a residual below 1e-9 or is the midpoint of a sign-changing bracket of half width below 1e-12 |
| Bisection.Xirr | implementations/python/uwmd_cash_flows.py:27-44 | the dated rate with its two-sign requirement |
| Bisection.PeriodicIrr | implementations/python/uwmd_calc_builtins.py:51-70 | the periodic rate |
| Bisection.ValueFalls | implementations/python/uwmd_cash_flows.py:16-24 | with negative amounts only at the anchor and a lawful power, present value never rises with the rate, and falls when some later amount is positive |
| Bisection.NearTrueRate | implementations/python/uwmd_cash_flows.py:27-44 | then the returned rate is within 1e-12 of every true rate in range or has a residual below 1e-9 |
| Calendar.ActualCountsDays | implementations/python/uwmd_numeric.py:68-71 | the date n steps of the calendar after a date is n/365 or n/360 of a year away under the actual conventions |
| Calendar.EveryDateIsAfter | implementations/python/uwmd_instant.py:14-21 | every date that is not earlier is reached from a date by exactly as many calendar steps as the era counts differ |
| Calendar.ThirtyCounts | implementations/python/uwmd_numeric.py:72-75 | under 30/360 US months are twelfths of a year and days up to the thirtieth 360ths; a start on the 31st counts as the 30th, and an end on the 31st as the 30th if and only if the start is on the 30th or 31st |
| Calendar.ThirtyAddsIff | implementations/python/uwmd_numeric.py:72-75 | 30/360 US fractions add up over a middle date if and only if a stated condition on the three day numbers holds |
| Calendar.SumOfYears | experiments/numerical-0088/dated-conventions/python_graph.py:9-15 | the sum over complete years and months |
| Calendar.LeapsBefore | implementations/python/uwmd_numeric.py:53-58 | the closed count of leap years is the count by years |
| Calendar.ThreeCountsAgree | implementations/python/uwmd_instant.py:14-21 | for every real Gregorian date from year zero the era formula plus 719528, the closed ordinal and the sum of years are equal |
| Calendar.NextOrdinal | experiments/numerical-0088/dated-conventions/python_graph.py:9-15 | successive dates have successive ordinals, over month ends, leap days and year ends |
| Calendar.OrdinalOrder | implementations/python/uwmd_numeric.py:53-58 | ordinals order dates as the calendar does |
| Calendar.DateOfOrdinal | implementations/python/uwmd_numeric.py:53-58 | every ordinal is the ordinal of a real date |
| Calendar.ActualAdds | implementations/python/uwmd_numeric.py:61-71 | actual day counts add over consecutive intervals, whichever of the three procedures counts each |
| Calendar.FractionRises | implementations/python/uwmd_numeric.py:61-76 | under every convention, 30/360 US included, the year fraction of ordered dates is nonnegative and does not decrease with the end date |

## Left out

- The fdlibm procedures other than `sqrt` (`scalbn`, `log`, `exp`, `pow`): the error of their polynomials is not promised by the code; the pinned power is a parameter with laws.
- Binary64 rounding inside the money procedures, the present values and the year fractions: exact reals take its place, so the finiteness checks and nonfinite findings there have no counterpart.
- Ladder.QuantizeMonotone: is about rounding exact reals half away from zero to a grid; the decimal-string shift of binary64 values by which the source rounds is not modelled.
- Ladder.WaterfallTerms: starts from typed terms; the checks of shape, type and closed members are left out.
- JsonSource.SourceTokens: host conversion of a lexeme is taken as the nearest word.
- JsonSource.Parser.StringLiteral: takes the decoding of a literal as a parameter; `JsonString.Decode` is the instance, which refuses a lone surrogate where it is decoded, while the source refuses it afterwards, when the value is encoded or its block admitted (`_lone_surrogate`).
- JsonSource.ParseJsonSource: takes that decoding as a parameter too, and so says nothing of escapes; `JsonGrammar.AcceptedIffSpelled` does for the instance. It tells refusals apart by kind, and the grammar only that there is one.
- Canonical.TextIsFaithful: the depth limit of the cell loader (128) is stated on the value, and its parser is the strict one of the byte-span source, whose own limit is 200.
- Canonical.ReadWrite: strings are sequences of Unicode scalar values, so the writer's refusal of lone surrogates has no counterpart; integers are written through `ShortestDecimal.JcsInteger`, not as part of a value.
- The fence scanner that finds the structured blocks of a Markdown file (`scan_source`).
- Bundle.RoundTrip: the manifest with file hashes, byte counts and views, CSV quoting, the version strings and the ZIP and XML carriers are not part of this model; the schema is assumed to compare numbers as numbers (`Host.Unsigned`), so that it does not tell negative zero from zero.
- BundleDigest.EqualDigests: the hash is a parameter, assumed to tell the two preimages at hand apart (`Separates`).
- BundleAccepted.AcceptedIsEncoded: is about the tables, after the CSV grammar and the manifest inventory have been checked.
- Projection.SelectionAgreesIff: compares the selection that includes externalized blocks; the payloads of blocks are left out.
- Projection.SemanticEnvelope: identifies each block by its position; building its annotation, meta and prose is left out.
- Waterfall.AllocateWaterfall: does not model the XIRR outcome of each party, which `Bisection` covers by itself, or the comparison with stated figures.
- WaterfallLaws.OwedOverRun: assumes a power and year fractions that add over consecutive intervals (`Additive`), as the actual day counts do (`Calendar.ActualAdds`); under 30/360 US the source accrues interval by interval, and the fractions of intervals need not add up (`Calendar.ThirtyAddsIff`).
- Waterfall.TrueUp: requires the positive floor rate that the section schema demands.
- Waterfall.Conservation: assumes rows in date order, which the series check that precedes allocation establishes.
- Expressions.ParseText: starts from tokens; the lexer and its limit on the number of tokens are not part of this model, and neither is the host recursion limit.
- Evaluation.ResolvedAreListed: leaves arithmetic, comparison, the builtins and the resolution of a reference to the host, as parameters.
- PowerError.PowerWithinRoundings: is about runs in which no intermediate result underflows; a run that does is covered by `IntegerPower.MultiplyIsNearest` operation by operation.
- IntegerPower.HybridPower: does not model the hash of the operation trace, only its length.
- Assembly.ScanCoverage: zero declarations carry no explanation text and row indices are integers, so a blank explanation and a fractional index are not modelled.
- Assembly.Assemble: starts after selection and schema admission; the period grammar that bounds the closing dates, the sale deductions and the net proceeds are left out, and refusals are told apart by kind without their messages.
- Reserves.MovementIssues: does not model blank identities and the checks of amounts and kinds.
- Reserves.ReserveStructure: does not model account metadata and currencies.
- Reserves.VerifyPeriods: does not model the nonfinite branch, source digests or the evidence records.
- Reserves.PlanIssues: does not model the checks that names are not blank and amounts positive.
- Reserves.VerifyBindings: starts from resolved draws and expenditures; resolution in the document and currencies are left out.
- Calendar.ThreeCountsAgree: starts from year, month and day; the instant pattern, time of day and zone offsets are left out.
- Command-line dispatch, file access, conformance runners, signatures, receipts, the TypeScript packages and the inventories of single-branch admission rules: plumbing or easy members.
