# jlox_in_cpp core in Dafny

This project models the core of `jlox_in_cpp`, a C++ tree-walking interpreter
for the Lox language. The model covers the project's own container templates
and the lexer built on them:

- `Dynamic_Array<T>` (`dynamic_array.dfy`, module `DynamicArrays`): a class over
  an `array<T>` buffer with `maximumIndex` and `resizeFactor`. Every insert and
  remove copies the elements into a new buffer, and a full buffer first grows by
  the resize factor. Out-of-range indices produce the `std::out_of_range`
  messages as `Fail`/`Err` values. `Serialize` joins the elements with spaces,
  and `Split` is proved to be its inverse.
- `Linked_List<T>` (`linked_list.dfy`, module `LinkedLists`): a doubly linked
  list of `Cell` objects with `polar_left`/`polar_right` ends. Each method is
  proved against the ghost sequence `Contents`, with a `Repr` footprint.
- `Hash_Table<K, V>` (`hash_chains.dfy` and `hash_table.dfy`, modules `HashChains`
  and `HashTables`): chained hashing with lazy rehashing.
  - When an insert would push the load factor `(size + 1) / buckets` above 3,
    the bucket array doubles by appending empty buckets, and no cell moves.
  - `search` and `remove` probe the bucket counts S, S/2, S/4, … down to the
    original 4.
  - `search` moves a cell it finds into its bucket under the current count.
  - The table invariant `TableInv` is proved to hold after every operation. It
    says that every cell sits in a bucket the probe for its key visits, that no
    key is stored twice, and that the cells define the ghost map `Contents`.
  - The contract of every operation is stated on `Contents`.
- `Token` (`token.dfy`, module `Tokens`): the token kinds, `token_type_to_str`
  with its inverse, the token record, and `Token::to_string` with a parser
  that inverts it.
- `Scanner` (`scanner.dfy`, module `Scanning`):
  - `ScanOne` specifies one call of `scan_token` as a function on values:
    where it stops, the line it reaches, and the tokens and error reports it
    produces. `ScanAll` specifies the whole of `scan_tokens`.
  - Lemmas state what each kind of lexeme produces, and that every step
    consumes exactly its lexeme while counting its newlines.
  - The scan ends with exactly one end-of-file token, and token lines never
    decrease.
  - The class `Scanner` is the imperative scanner with its `start`, `current`,
    `line` and `tokens` fields. Each of its methods is proved to move those
    fields exactly as the specification functions say.

`sequences.dfy` holds the sequence insert/remove functions shared by the
containers, and `wrappers.dfy` holds `Option`, `Result` and `Outcome`.

The size counter of `Hash_Table` is modelled as written: it also counts an
insert of a key that is already present, and only a remove that finds its key
decrements it. The invariant keeps it between the number of stored cells and
three times the bucket count.

## Model

| member | source | states |
|---|---|---|
| DynamicArrays.DynamicArray.constructor | include/data_structures/dynamic_array.hpp:136-143 | a new array is empty, with 4 slots and resize factor 2 |
| DynamicArrays.DynamicArray.Sized | include/data_structures/dynamic_array.hpp:145-152 | an array built with an initial size is empty, with that many slots and resize factor 2 |
| DynamicArrays.DynamicArray.SetResizeFactor | include/data_structures/dynamic_array.hpp:196-200 | only the resize factor changes; buffer and elements stay |
| DynamicArrays.DynamicArray.GetResizeFactor | include/data_structures/dynamic_array.hpp:205-209 | returns the resize factor |
| DynamicArrays.DynamicArray.GetSize | include/data_structures/dynamic_array.hpp:211-215 | returns the capacity, which is never below the element count |
| DynamicArrays.DynamicArray.GetMaximumIndex | include/data_structures/dynamic_array.hpp:217-221 | returns the element count minus one (-1 when empty) |
| DynamicArrays.DynamicArray.Resize | include/data_structures/dynamic_array.hpp:501-520 | a fresh buffer resize-factor times larger holds the same elements |
| DynamicArrays.DynamicArray.Insert | include/data_structures/dynamic_array.hpp:239-284 | an index up to the element count inserts the data there and shifts later elements right; a larger index fails with the out-of-range message and changes nothing; the capacity grows exactly when the buffer was full |
| DynamicArrays.DynamicArray.CopyInserting | include/data_structures/dynamic_array.hpp:253-274 | the two copy loops fill a fresh buffer of the same size with the elements and the new datum at its index |
| DynamicArrays.DynamicArray.Replace | include/data_structures/dynamic_array.hpp:286-297 | an index below the element count overwrites that element only; a larger index fails and changes nothing |
| DynamicArrays.DynamicArray.Remove | include/data_structures/dynamic_array.hpp:299-338 | an index below the element count removes that element and shifts later ones left, keeping the capacity; a larger index fails and changes nothing |
| DynamicArrays.DynamicArray.Get | include/data_structures/dynamic_array.hpp:357-366 | returns the element at an index below the element count, the out-of-range error otherwise |
| DynamicArrays.DynamicArray.Merge | include/data_structures/dynamic_array.hpp:340-352 | the source array's elements end up in front of this array's, and the source array is reset to an empty 4-slot array with factor 2 |
| DynamicArrays.DynamicArray.InsertInFront | include/data_structures/dynamic_array.hpp:342-345 | inserting the source array's elements one by one at positions 0, 1, … puts them, in order, before the existing elements |
| DynamicArrays.DynamicArray.LinearSearch | include/data_structures/dynamic_array.hpp:415-431 | an offset past the last element fails; otherwise the result is the first index at or after the offset holding the data |
| DynamicArrays.DynamicArray.Serialize | include/data_structures/dynamic_array.hpp:436-456 | the result is the elements' strings joined by single spaces |
| DynamicArrays.JoinSnoc | include/data_structures/dynamic_array.hpp:443-451 | appending one more element adds a space and its string |
| DynamicArrays.JoinLength | include/data_structures/dynamic_array.hpp:443-451 | the serialized length is the total length of the parts plus one space between each pair |
| DynamicArrays.JoinEnds | include/data_structures/dynamic_array.hpp:443-451 | the serialized string starts with the first element's string and ends with the last one's |
| DynamicArrays.JoinHasNoOuterSpace | include/data_structures/dynamic_array.hpp:449-451 | no space is added before the first or after the last element |
| DynamicArrays.SplitJoin | include/data_structures/dynamic_array.hpp:436-456 | splitting at spaces recovers the elements' strings when none of them holds a space |
| DynamicArrays.FillInOrder | tests/test_data_structures/test_dynamic_array.cpp:14-16 | inserting values at indices 0, 1, … stores exactly those values; the capacity stays the initial size when they fit |
| DynamicArrays.InitialSizeScenario | tests/test_data_structures/test_dynamic_array.cpp:6-24 | 13 inserts into a 13-slot array leave capacity 13 and maximum index 12 |
| DynamicArrays.UpsizingScenario | tests/test_data_structures/test_dynamic_array.cpp:27-50 | 33 inserts into an 11-slot array with factor 3 leave capacity 33 and maximum index 32 |
| DynamicArrays.InsertDataScenario | tests/test_data_structures/test_dynamic_array.cpp:53-89 | after 12 appends, an insert at 0 and an insert at 4, the elements read back as the test expects |
| DynamicArrays.RemoveDataScenario | tests/test_data_structures/test_dynamic_array.cpp:91-112 | removing the last, the first and index 1 from 11, 15, 1, 7, 52 leaves 15, 7 |
| Sequences.RemoveInsertedAt | include/data_structures/dynamic_array.hpp:253-336 | removing at an index what was just inserted there gives back the original elements |
| LinkedLists.Cell.constructor | include/data_structures/linked_list.hpp:66-70 | a cell holds its data and its left and right links |
| LinkedLists.LinkedList.constructor | include/data_structures/linked_list.hpp:82-87 | a new list is empty |
| LinkedLists.LinkedList.GetSize | include/data_structures/linked_list.hpp:128-131 | returns the number of elements |
| LinkedLists.LinkedList.CellAt | include/data_structures/linked_list.hpp:187-194 | walking right from the left end `index` times reaches the cell at that position |
| LinkedLists.LinkedList.Insert | include/data_structures/linked_list.hpp:136-158 | the data is appended at the right end |
| LinkedLists.LinkedList.InsertAt | include/data_structures/linked_list.hpp:160-213 | an index up to the length inserts the data at that position; a larger index changes nothing |
| LinkedLists.LinkedList.Prepend | include/data_structures/linked_list.hpp:174-178 | the data becomes the new left end |
| LinkedLists.LinkedList.LinkBefore | include/data_structures/linked_list.hpp:186-206 | linking a new cell before an inner cell inserts the data at that cell's position |
| LinkedLists.LinkedList.Remove | include/data_structures/linked_list.hpp:215-234 | the right-end element is removed |
| LinkedLists.LinkedList.RemoveAt | include/data_structures/linked_list.hpp:236-280 | an index below the length removes that element; a larger index changes nothing |
| LinkedLists.LinkedList.RemoveFirst | include/data_structures/linked_list.hpp:238-253 | the left-end element is removed |
| LinkedLists.LinkedList.Unlink | include/data_structures/linked_list.hpp:259-273 | bypassing an inner cell removes exactly that element |
| LinkedLists.LinkedList.Replace | include/data_structures/linked_list.hpp:282-303 | an index below the length overwrites that element only; a larger index changes nothing |
| LinkedLists.LinkedList.Get | include/data_structures/linked_list.hpp:308-330 | returns the element at an index below the length, the out-of-range error otherwise |
| LinkedLists.LinkedList.Clear | include/data_structures/linked_list.hpp:117-123 | removing the right end until the size is 0 empties the list |
| LinkedLists.FromValues | tests/test_data_structures/test_linked_list.cpp:14-18 | appending values one by one gives a list of exactly those values |
| LinkedLists.InsertDataScenario | tests/test_data_structures/test_linked_list.cpp:5-39 | after 11 appends, an insert at 0 and an insert at 6, the elements read back as the test expects |
| LinkedLists.RemoveDataScenario | tests/test_data_structures/test_linked_list.cpp:41-58 | removing index 4, then 0, then 1 from 15, 34, 72, 55, 67 leaves 34, 55 |
| HashChains.BucketCount | include/data_structures/hash_table.hpp:164-175 | the bucket count after any number of doublings is at least the original 4 |
| HashChains.BucketCountMonotone | include/data_structures/hash_table.hpp:164-175 | bucket counts grow with each doubling and are equal only for the same number of doublings |
| HashChains.DividedSize | include/data_structures/hash_table.hpp:206-224 | the probe's count divided by 2 to the p is the count p doublings earlier, and it reaches the original 4 exactly when p is the number of doublings |
| HashChains.ProbedAt | include/data_structures/hash_table.hpp:249-250 | the bucket a key hashes to under any earlier bucket count is among those the probe visits |
| HashChains.ProbedWitness | include/data_structures/hash_table.hpp:249-250 | every bucket the probe visits is the key's bucket under some earlier bucket count |
| HashChains.MapOfAdd | include/data_structures/hash_table.hpp:188-191 | storing a cell with a new key adds exactly that key and value to the map the cells define |
| HashChains.MapOfRemove | include/data_structures/hash_table.hpp:214-215 | deleting a stored cell removes exactly its key from that map |
| HashChains.ProbeMiss | include/data_structures/hash_table.hpp:288-298 | when no probed bucket holds the key, no bucket does |
| HashChains.RelocatePairs | include/data_structures/hash_table.hpp:272-281 | relocating a cell keeps the multiset of stored cells |
| HashChains.RelocatePlaced | include/data_structures/hash_table.hpp:272-281 | after relocation every cell still sits where the probe for its key looks |
| HashChains.ScanChain | include/data_structures/hash_table.hpp:258-262 | the walk over a chain finds the first cell with the key, or reports that none has it |
| HashChains.TableInvEmpty | include/data_structures/hash_table.hpp:84-98 | 4 empty buckets with size 0 satisfy the table invariant for the empty map |
| HashChains.TableInvGrow | include/data_structures/hash_table.hpp:164-175 | doubling the bucket count by appending empty buckets keeps the invariant and the contents |
| HashChains.TableInvLookup | include/data_structures/hash_table.hpp:260-262 | any stored cell gives its key's value in the contents |
| HashChains.TableInvMiss | include/data_structures/hash_table.hpp:288-298 | a key missing from every probed bucket is not in the contents |
| HashChains.TableInvCount | include/data_structures/hash_table.hpp:194 | counting one more insert below the load bound keeps the invariant |
| HashChains.TableInvRelocate | include/data_structures/hash_table.hpp:272-281 | moving a found cell to its current bucket keeps the invariant and the contents |
| HashChains.TableInvAdd | include/data_structures/hash_table.hpp:182-194 | appending a cell with a new key to its current bucket adds that pair to the contents and keeps the invariant |
| HashChains.TableInvRemove | include/data_structures/hash_table.hpp:210-217 | deleting a stored cell and decrementing the size removes its key from the contents and keeps the invariant |
| HashTables.MoveCell | include/data_structures/hash_table.hpp:274-279 | the bucket array's elements become the relocated chains |
| HashTables.AppendCell | include/data_structures/hash_table.hpp:184-191 | the cell is appended to the chain of its bucket, and only that chain changes |
| HashTables.RemoveCell | include/data_structures/hash_table.hpp:214-215 | the cell at the position is removed from its chain, and only that chain changes |
| HashTables.AppendEmpties | include/data_structures/hash_table.hpp:169-173 | inserting null buckets up to twice the count doubles the capacity and appends that many empty chains |
| HashTables.HashTable.constructor | include/data_structures/hash_table.hpp:84-98 | a new table has 4 null buckets, size 0 and no contents |
| HashTables.HashTable.Probe | include/data_structures/hash_table.hpp:243-298 | the probe over S, S/2, … 4 buckets finds a cell with the key, or the key is not in the table |
| HashTables.HashTable.MoveHome | include/data_structures/hash_table.hpp:272-281 | moving the found cell to its bucket under the current count changes the chains as `Relocate` says and keeps the contents |
| HashTables.HashTable.Search | include/data_structures/hash_table.hpp:241-300 | returns the stored value of a present key and nothing for an absent one; the contents and size stay, an absent key leaves every chain as it was, and a found key then sits in its current bucket |
| HashTables.HashTable.Grow | include/data_structures/hash_table.hpp:164-175 | the bucket count doubles, new buckets are empty, and the contents stay |
| HashTables.HashTable.AddPair | include/data_structures/hash_table.hpp:182-194 | a new key's pair is appended at the end of the chain of bucket `b`, its home bucket, every other chain stays, the contents gain the pair and the size grows by one |
| HashTables.HashTable.CountDuplicate | include/data_structures/hash_table.hpp:194 | an insert of a present key only increments the size |
| HashTables.HashTable.MakeRoom | include/data_structures/hash_table.hpp:162-175 | the bucket count doubles, by appending as many empty chains, exactly when (size + 1) / buckets exceeds 3, after which the insert stays within the load bound |
| HashTables.HashTable.Insert | include/data_structures/hash_table.hpp:157-196 | a new key's pair is added and its cell appended at the end of the chain `hash(key)` modulo the bucket count after growth, a present key keeps its old value, the size always grows by one, and the table doubles, with one more generation, exactly when the load factor would exceed 3 |
| HashTables.HashTable.TakeOut | include/data_structures/hash_table.hpp:210-217 | deleting a found cell removes its key from the contents and decrements the size |
| HashTables.HashTable.Remove | include/data_structures/hash_table.hpp:198-234 | the key leaves the contents; the size drops by one exactly when the key was present |
| HashTables.HashTable.Replace | include/data_structures/hash_table.hpp:236-239 | the key is mapped to the new value; the size grows only when the key was absent, and the generation advances exactly when the re-insert after the removal would exceed the load bound |
| HashTables.FirstIndex | tests/test_data_structures/test_hash_table.cpp:15-21 | the first position holding the same key |
| HashTables.FirstValuesLookup | tests/test_data_structures/test_hash_table.cpp:15-21 | after a series of inserts each key maps to the value of its first insert |
| HashTables.FirstValuesKeys | tests/test_data_structures/test_hash_table.cpp:15-21 | after a series of inserts the keys present are exactly those inserted |
| HashTables.InsertAll | tests/test_data_structures/test_hash_table.cpp:15-21 | inserting the pairs in order into an empty table keeps each key's first value |
| HashTables.SearchAll | tests/test_data_structures/test_hash_table.cpp:23-25 | searching each key returns its stored value, or nothing when absent, and leaves the contents |
| HashTables.InsertDataScenario | tests/test_data_structures/test_hash_table.cpp:5-27 | every inserted key is found with the value of its first insert |
| Tokens.EnumeratorName | source/token/token.cpp:4-47 | each enumerator's name is non-trivial and has no space |
| Tokens.NameToTokenType | source/token/token.cpp:4-47 | a recognised enumerator name is the name of the type returned |
| Tokens.StrToTokenType | source/token/token.cpp:3-51 | a recognised printable name is the name of the type returned |
| Tokens.NameRoundTrip | source/token/token.cpp:4-47 | each token type's enumerator name reads back as that type |
| Tokens.TokenTypeRoundTrip | source/token/token.cpp:3-51 | each token type's printable name reads back as that type |
| Tokens.TokenTypeToStrInjective | source/token/token.cpp:3-51 | distinct token types have distinct printable names |
| Tokens.ToString | source/token/token.cpp:61-65 | the printed token starts with the type label and ends with the lexeme, with nothing else added |
| Tokens.ToStringRoundTrip | source/token/token.cpp:61-65 | the printed token can be parsed back into its type and lexeme |
| Tokens.ToStringInjective | source/token/token.cpp:61-65 | tokens with the same printed form have the same type and lexeme |
| Scanning.SkipWhile | source/scanner/scanner.cpp:119-121 | the skip loops stop at the first character that ends the run, or at the end of the source |
| Scanning.SkipWhileAll | source/scanner/scanner.cpp:151-153 | every character a skip loop passed over continues the run |
| Scanning.KeywordTableEntries | source/scanner/scanner.cpp:15-34 | every reserved type's key is in the table, every entry is an inserted type spelled by its key, and a type is the one kept under its key when no earlier type had that key (an insert under a present key keeps the first) |
| Scanning.ReservedWordSpellsEnumerator | source/scanner/scanner.cpp:19-34 | each Lox reserved word, in capitals, is its token type's enumerator name |
| Scanning.LoxKeywordsRecognised | source/scanner/scanner.cpp:150-160 | with reserved-word keys, each reserved word scans as its own type, every other word as an identifier, and no word as end of file |
| Scanning.AsWrittenKeyOfAnd | source/scanner/scanner.cpp:17-19 | the key the constructor enters for `and` is `en_Type::TT_AND` |
| Scanning.AsWrittenKeyHasColon | source/scanner/scanner.cpp:17 | every key the constructor enters holds a colon |
| Scanning.AsWrittenLookupAlwaysMisses | source/scanner/scanner.cpp:155-157 | no identifier lexeme is found in the table as built, so the lookup always yields the null pointer |
| Scanning.ScanOne | source/scanner/scanner.cpp:69-148 | every call of `scan_token` consumes at least one character and stays within the source |
| Scanning.SingleConsumes | source/scanner/scanner.cpp:73-101 | a one-character token has that character as its lexeme and the current line |
| Scanning.OperatorConsumes | source/scanner/scanner.cpp:103-115 | an operator consumes its lexeme, reports nothing, and is the pair or the single type |
| Scanning.SlashConsumes | source/scanner/scanner.cpp:116-125 | a slash or a comment consumes its lexeme without reports |
| Scanning.BlankConsumes | source/scanner/scanner.cpp:126-134 | a blank consumes one character and counts a newline |
| Scanning.StringConsumes | source/scanner/scanner.cpp:181-203 | a string literal consumes its lexeme, counting its newlines, and gives at most one token or report on its last line |
| Scanning.NumberConsumes | source/scanner/scanner.cpp:162-179 | a number consumes its lexeme and gives one `Number` token |
| Scanning.IdentifierConsumes | source/scanner/scanner.cpp:150-160 | a word consumes its lexeme and gives one identifier or keyword token |
| Scanning.ScanOneConsumes | source/scanner/scanner.cpp:69-148 | every step advances within the source, counts exactly the newlines it passes, and gives at most one token or report whose lexeme is the consumed text and whose line is the new line |
| Scanning.ScanOneNoEof | source/scanner/scanner.cpp:69-148 | no step gives an end-of-file token when the keyword table has none |
| Scanning.ScanStepComposes | source/scanner/scanner.cpp:55-60 | one step followed by the rest of the scan yields what the scan from the earlier position yields |
| Scanning.PunctuationScan | source/scanner/scanner.cpp:73-101 | each single-character punctuator gives its own token type with that character as lexeme |
| Scanning.OperatorScan | source/scanner/scanner.cpp:103-115 | `!`, `=`, `<`, `>` give the two-character type exactly when `=` follows, and the one-character type otherwise |
| Scanning.SlashScan | source/scanner/scanner.cpp:116-125 | `//` skips up to but not past the line break with no token; a lone `/` gives `Slash` |
| Scanning.BlankScan | source/scanner/scanner.cpp:126-134 | blanks give nothing; a newline increments the line |
| Scanning.StringScan | source/scanner/scanner.cpp:135-137 | a quote scans a string literal as `StringShape` says |
| Scanning.StringShape | source/scanner/scanner.cpp:181-203 | a closed string gives a `String` token whose literal is the text between the quotes, on the line of the closing quote; an unclosed one runs to the end and reports an unterminated string |
| Scanning.NumberScan | source/scanner/scanner.cpp:162-179 | a digit starts a `Number` token made of digits with at most one inner dot, followed by no further digit |
| Scanning.NumberShape | source/scanner/scanner.cpp:167-175 | a dot is taken only when a digit follows it, and then the fraction's digits are taken too |
| Scanning.IdentifierScan | source/scanner/scanner.cpp:150-160 | a letter or `_` starts a maximal run of word characters typed by the keyword table |
| Scanning.UnexpectedScan | source/scanner/scanner.cpp:138-146 | any other character gives no token and one "Unexpected character." report |
| Scanning.ScanAllEndsWithEof | source/scanner/scanner.cpp:55-67 | the scan ends with exactly one end-of-file token, with an empty lexeme, on the last line |
| Scanning.ScanAllLinesAscend | source/scanner/scanner.cpp:55-67 | token lines never decrease and never fall below the starting line |
| Scanning.Scanner.constructor | source/scanner/scanner.cpp:5-37 | a new scanner is on line 1 at position 0, with no tokens, the given reporter and the reserved-word keyword table (see Findings) |
| Scanning.Scanner.Peek | source/scanner/scanner.cpp:220-226 | a non-null result is the current character |
| Scanning.Scanner.PeekNext | source/scanner/scanner.cpp:228-234 | a non-null result is the character after the current one |
| Scanning.Scanner.Advance | source/scanner/scanner.cpp:42-45 | returns the current character and moves one position on |
| Scanning.Scanner.Match | source/scanner/scanner.cpp:207-218 | it advances, and answers true, exactly when the current character is the expected one |
| Scanning.Scanner.AddToken | source/scanner/scanner.cpp:47-53 | appends one token whose lexeme is the text from `start` to `current` |
| Scanning.Scanner.SkipComment | source/scanner/scanner.cpp:119-121 | the comment loop stops where `SkipWhile` says |
| Scanning.Scanner.SkipString | source/scanner/scanner.cpp:182-190 | the string loop stops where `SkipWhile` says and counts the newlines it passes |
| Scanning.Scanner.LoxString | source/scanner/scanner.cpp:181-203 | the scanner's fields move as `ScanString` says |
| Scanning.Scanner.SkipDigits | source/scanner/scanner.cpp:163-165 | the digit loop stops where `SkipWhile` says |
| Scanning.Scanner.LoxNumber | source/scanner/scanner.cpp:162-179 | the scanner's fields move as `ScanNumber` says |
| Scanning.Scanner.LoxIdentifier | source/scanner/scanner.cpp:150-160 | the scanner's fields move as `ScanIdentifier` says |
| Scanning.Scanner.LoxOperator | source/scanner/scanner.cpp:103-115 | the scanner's fields move as `ScanOperator` says |
| Scanning.Scanner.LoxSlash | source/scanner/scanner.cpp:116-125 | the scanner's fields move as `ScanSlash` says |
| Scanning.Scanner.ScanToken | source/scanner/scanner.cpp:69-148 | the scanner's fields move as `ScanOne` says |
| Scanning.Scanner.ScanNext | source/scanner/scanner.cpp:57-60 | one loop turn advances, and the tokens collected so far followed by those the rest of the scan yields stay the same, as do the reports |
| Scanning.Scanner.ScanTokens | source/scanner/scanner.cpp:55-67 | the tokens returned are the ones found before plus those of `ScanAll`, and the reporter has logged that scan's reports |

## Left out

- Copy and move constructors, assignment operators and destructors of the three containers and of the hash table: they only move pointers or free memory. `LinkedList.Clear` models the destructor's loop.
- `Dynamic_Array::deserialize`: `Split` is its intended counterpart. The source takes the last word's length from `sizeof` of the string object, which depends on the C++ library.
- `begin`/`end` iterators and the `operator<<` printers: they are I/O and raw pointers.
- Memory management (`new`/`delete`, leaks, the heap copy `search` returns): a found value is returned as `Some(v)`.
- Integer widths: `size_t` and `uint64_t` are unbounded `nat`, and a line number is an unbounded `int`; no wrap-around is modelled.
- Dynamic_Array indices are `int` in the source, and a negative index reads or writes outside the buffer, which is undefined behaviour. The model's indices are `nat`, so a negative index cannot be passed.
- Source text is one character per byte, as the source's `std::string` is: the model assumes ASCII input. A multi-byte UTF-8 character such as `é` reaches the scanner's default branch once per byte, so the source reports it once per byte while the model, given the character, reports it once.
- The hash table's load factor is a `double` in the source. The model uses the exact integer test `size + 1 > 3 * buckets`. `pow(2, p)` is the integer `Pow2(p)`.
- `std::hash<K>` is a function parameter `hash: K -> nat` given to the constructor.
- Hash-table chains are sequences of cells rather than `Linked_List` objects, and a null bucket is the empty sequence. The list operations the table uses (append, remove at an index) are those `LinkedLists` proves.
- DynamicArrays.DynamicArray.Insert: requires that a full buffer actually grows (`CanGrow`). The source leaves a resize factor below 2 undefined and then writes past the buffer.
- DynamicArrays.DynamicArray.LinearSearch: requires the data to occur at or after an in-range offset. The source falls off the end of a non-void function otherwise.
- DynamicArrays.DynamicArray.Merge: requires a non-empty buffer and a resize factor of at least 2, so that each insert can grow the buffer.
- DynamicArrays.DynamicArray.Merge: requires the source array to be a different object (`Repr !! src.Repr`). Merging an array into itself never ends in the source, since each insert also raises the bound the loop runs to.
- LinkedLists.LinkedList.Remove: requires a non-empty list. The source dereferences a null end pointer otherwise.
- LinkedLists.LinkedList.RemoveAt: requires a non-empty list. The source dereferences a null end pointer otherwise.
- LinkedLists.LinkedList.RemoveFirst: requires a non-empty list. The source dereferences a null end pointer otherwise.
- LinkedLists.LinkedList.Replace: requires a non-empty list. The source dereferences a null end pointer otherwise.
- LinkedLists.LinkedList.Get: requires a non-empty list. The source dereferences a null end pointer otherwise.
- Scanning: the token list is a sequence field rather than a `Dynamic_Array<Token>`; appending is its insert at `maximum_index + 1`. The keyword table is a map value rather than a `Hash_Table`, so the reordering a lookup's lazy rehash does is not modelled there.
- Scanning: a number's literal is the constant `NumberValue`. The value `std::stod` computes is floating point.
- Scanning: `Error_Reporter::error` is a value that records the line and message and sets `had_error`. Writing to standard error is not modelled. The scanner keeps its own copy of the reporter, as `scanner.cpp` does.
- Tokens.TokenTypeToStr: the fallthrough that returns `""` cannot be reached with the datatype, so it is not modelled.
- The driver, the REPL, `main` and the files the core does not name are not part of this model.

## Findings

| source | as written | input that shows it | evidently intended | confidence | as-written member | corrected member |
|---|---|---|---|---|---|---|
| source/scanner/scanner.cpp:17-34 | the keyword key is the stringised qualified enumerator minus its first 3 characters | `and`: it is entered as `en_Type::TT_AND` | each key is the reserved word itself (`and` → `TT_AND`) | not executed | Scanning.AsWrittenKeyOfAnd | Scanning.LoxKeywordsRecognised |
| source/scanner/scanner.cpp:155-159 | a lookup miss writes through the null pointer `search` returned | `x` (any identifier, since with the keys above every lookup misses) | a miss gives `TT_IDENTIFIER` | not executed | Scanning.AsWrittenLookupAlwaysMisses | Scanning.LoxKeywordsRecognised |
