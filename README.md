# Vocabulary table of texar

This project models, in Dafny, the vocabulary class of texar's data package
(`texar/data/vocabulary.py`). A vocabulary is loaded from a list of lines, one
token per line. The load fails when one of the four special tokens (padding,
begin-of-sequence, end-of-sequence, unknown) is already among the lines. It
checks them in the order begin-of-sequence, end-of-sequence, unknown, padding,
and reports the first one it finds. Otherwise the four special tokens are put
in front of the lines, in the order padding, begin-of-sequence,
end-of-sequence, unknown. Two dictionaries with default values are built from
that combined list:

- id -> token, where a missing id yields the unknown token;
- token -> id, where a missing token yields 3.

The id of a token is its position in the combined list. When a string occurs
more than once, its last occurrence wins. Lookups map a scalar or an
arbitrarily nested list element by element, keep its nesting, and never fail.

Files:

- `defaultdict.dfy` (module `DefaultDicts`): the dictionary with a default
  value, and the loop of `_make_defaultdict` as the method `MakeDefaultDict`.
  The method is proved against `LastWriteMap`, which sends each key to the
  value paired with its last occurrence.
- `nested.dfy` (module `NestedLookup`): the element-wise, shape-preserving
  lookup over a `Nested` value. A `Nested` value is a scalar `Leaf` or a list
  `Node`.
- `vocabulary.dfy` (module `Vocabulary`): the special tokens, the load, the
  vocabulary value and its properties, the lemmas about a loaded vocabulary,
  and two worked examples.

A `Vocab` is a datatype value, not a class. The Python object assigns its
fields once in `__init__` and never changes them afterwards. Its constructor
raises when the load fails, and a Dafny constructor cannot fail. So
`__init__` is the method `NewVocab`, which returns a `Result`. The ghost
predicate `Vocab.LoadedFrom(lines)` says that the vocabulary's two
dictionaries are the ones a successful load of `lines` builds. The lemmas
about a vocabulary assume it. `Vocab.Valid()` says the vocabulary was loaded
from some lines. The property accessors state what they return under it.

The docstring of the `pad_token` property says the default padding token is
an empty string. The code's default is `"<PAD>"` (`SpecialTokens.PAD`), and the
model follows the code. The docstring of `SpecialTokens` says these tokens "will by
default have token ids 0, 1, 2, 3". The code keeps that promise for the
default strings (`DefaultSpecialTokenIds`). With custom strings, only the
unknown token is sure to get its id, 3. Padding, begin-of-sequence and
end-of-sequence keep 0, 1 and 2 only when the four strings are pairwise
distinct. When two of them coincide, the later slot wins.

## Model

| member | source | states |
|---|---|---|
| `DefaultDicts.MakeDefaultDict` | texar/data/vocabulary.py:43-62 | Pairs keys with values in order, up to the end of the shorter list as `zip` does. The resulting dictionary sends each key to the value at its last occurrence, holds no other key, and keeps the given default. |
| `DefaultDicts.LastWriteMapSnoc` | texar/data/vocabulary.py:60-61 | Assigning one more pair to the dictionary built from a prefix gives the dictionary built from the longer prefix, with the last write winning. |
| `DefaultDicts.LastWriteMapAt` | texar/data/vocabulary.py:58-62 | Every key is present in the filled dictionary. A key at its last occurrence maps to the value paired with it there. |
| `DefaultDicts.LastIndexOf` | texar/data/vocabulary.py:145-148 | The result is -1 exactly when the element is absent. Otherwise the element sits at the result and at no later position. |
| `DefaultDicts.LastIndexOfAt` | texar/data/vocabulary.py:147-148 | The last index of `s[i]` is `i` exactly when no later position holds the same element. |
| `NestedLookup.Lookup` | texar/data/vocabulary.py:152-178 | The output has the input's nesting. The output's scalars, left to right, are the input's scalars each looked up, with a missing key giving the unknown value. |
| `NestedLookup.LookupRoundTrip` | texar/data/vocabulary.py:152-178 | Looking a nested value up and then looking the result up in a second dictionary gives the input back, when the second dictionary undoes the first on each of its scalars. |
| `Vocabulary.Load` | texar/data/vocabulary.py:103-150 | Fails exactly when a special token is among the lines. The error names the first such token in the order bos, eos, unk, pad, and no dictionaries are produced. On success it returns the id -> token and token -> id dictionaries of `[pad, bos, eos, unk] + lines`. |
| `Vocabulary.NewVocab` | texar/data/vocabulary.py:88-101 | Fails as the load does. On success the vocabulary keeps the given special tokens and holds the dictionaries of the load. |
| `Vocabulary.RejectionExample` | texar/data/vocabulary.py:121-132 | The lines `"<UNK>"` and `"<EOS>"` are rejected with the end-of-sequence token, which is checked before the unknown token whatever the line order. |
| `Vocabulary.Specials.List` | texar/data/vocabulary.py:137-138 | The four special strings in slot order: padding at 0, begin-of-sequence at 1, end-of-sequence at 2, unknown at 3. |
| `Vocabulary.Vocab.MapIdsToTokens` | texar/data/vocabulary.py:152-164 | Keeps the nesting of the ids. Each id is looked up in id -> token, and a missing id gives the unknown token. |
| `Vocabulary.Vocab.MapTokensToIds` | texar/data/vocabulary.py:166-178 | Keeps the nesting of the tokens. Each token is looked up in token -> id, and a missing token gives the unknown token's id, which is 3 in a loaded vocabulary. |
| `Vocabulary.Vocab.Size` | texar/data/vocabulary.py:193-197 | In a loaded vocabulary, the number of keys of token -> id equals the number of distinct tokens that id -> token holds. |
| `Vocabulary.Vocab.PadTokenId` | texar/data/vocabulary.py:244-248 | In a loaded vocabulary, the last special slot that holds the padding string. |
| `Vocabulary.Vocab.BosTokenId` | texar/data/vocabulary.py:205-210 | In a loaded vocabulary, the last special slot that holds the begin-of-sequence string. |
| `Vocabulary.Vocab.EosTokenId` | texar/data/vocabulary.py:218-223 | In a loaded vocabulary, the last special slot that holds the end-of-sequence string. |
| `Vocabulary.Vocab.UnkTokenId` | texar/data/vocabulary.py:231-235 | In a loaded vocabulary, 3. |
| `Vocabulary.Vocab.SpecialTokens` | texar/data/vocabulary.py:250-257 | The four special strings in pad, bos, eos, unk order. In a loaded vocabulary, ids 0 to 3 map to them in that order. |
| `Vocabulary.ValidSize` | texar/data/vocabulary.py:193-197 | In a loaded vocabulary, token -> id has as many keys as id -> token has distinct values. |
| `Vocabulary.IdToTokenAt` | texar/data/vocabulary.py:137-146 | The ids present are exactly 0 to the number of lines plus 3, the positions of the combined list. These are more ids than `size` when lines repeat. Id `i` maps to position `i` of the combined list, so line `k` has id `k + 4`. Every other id maps to the unknown token. |
| `Vocabulary.TokenToIdAt` | texar/data/vocabulary.py:145-148 | The tokens present are exactly those of the combined list. Each maps to its last position there, and any other token maps to 3. |
| `Vocabulary.SpecialTokenIds` | texar/data/vocabulary.py:205-248 | Each special token's id is the last of the four special slots that holds its string, for a vocabulary loaded from given lines (a corollary of the `*TokenId` accessor contracts). |
| `Vocabulary.UnkTokenIdIsThree` | texar/data/vocabulary.py:231-235 | The unknown token's id is 3 for every loaded vocabulary (a corollary of `SpecialTokenIds`). |
| `Vocabulary.SpecialTokenIdsWhenDistinct` | texar/data/vocabulary.py:205-248 | With pairwise distinct special strings, the ids are pad 0, bos 1, eos 2 and unk 3. |
| `Vocabulary.DefaultSpecialTokenIds` | texar/data/vocabulary.py:32-40 | The default special tokens get the ids 0, 1, 2 and 3. |
| `Vocabulary.SpecialTokensInIdOrder` | texar/data/vocabulary.py:250-257 | The special-token list is the first four slots of the combined list. Ids 0 to 3 map back to its entries in order. |
| `Vocabulary.UnknownTokenMapsToUnkId` | texar/data/vocabulary.py:166-178 | A token absent from the table maps to id 3. |
| `Vocabulary.UnknownIdMapsToUnkToken` | texar/data/vocabulary.py:152-164 | An id below 0 or at least the number of combined slots maps to the unknown token. |
| `Vocabulary.TokenRoundTrip` | texar/data/vocabulary.py:145-148 | Every token of the table comes back from its own id. |
| `Vocabulary.IdRoundTrip` | texar/data/vocabulary.py:145-148 | An id in range comes back from its token exactly when it is the last occurrence of that token. |
| `Vocabulary.MapRoundTrip` | texar/data/vocabulary.py:152-178 | Mapping nested tokens of the table to ids and back to tokens gives the input. |
| `Vocabulary.SizeCountsDistinctTokens` | texar/data/vocabulary.py:193-197 | The size is the number of distinct strings in the combined list. That equals the distinct special strings plus the distinct lines, because no line is a special token. |
| `Vocabulary.SizeOfDistinctVocab` | texar/data/vocabulary.py:193-197 | With distinct special tokens and distinct lines, the size is the number of lines plus 4. |
| `Vocabulary.CatDogIds` | texar/data/vocabulary.py:137-148 | With the default special tokens, lines "cat" and "dog" get ids 4 and 5. |
| `Vocabulary.CatDogFallbacks` | texar/data/vocabulary.py:137-178 | For the same vocabulary, "fish" maps to 3 and id 0 maps to `"<PAD>"`. |
| `Vocabulary.CatDogSize` | texar/data/vocabulary.py:193-197 | For the same vocabulary, the size is 6. |
| `Vocabulary.CatDogExample` | texar/data/vocabulary.py:88-150 | Building that vocabulary succeeds and gives those ids, tokens and size. |
| `Vocabulary.CatDogLines` | texar/data/vocabulary.py:121-132 | No default special token is one of the lines "cat" and "dog", so that load passes its checks. The lines are distinct, and "fish" is not in the combined list. |

## Left out

- Reading the vocabulary file and stripping each line (vocabulary.py:116-117) are I/O. The model takes the stripped lines as a `seq<string>`, and does not keep the file name.
- The `warnings.simplefilter` calls (vocabulary.py:119, 134) only adjust logging.
- The `ValueError` message text is not modelled. The error keeps the role of the offending special token and its string.
- numpy is not modelled. Ids from `np.arange` are plain integers. Arrays and nested lists are both the `Nested` datatype, which also admits ragged nesting.
- `dict_lookup` of `texar.utils.utils` is not part of this model. `NestedLookup.Lookup` states only what the two lookup docstrings promise: each element is looked up, a missing key gives the unknown value, and the shape is kept.
- Reading a missing key of a Python `defaultdict` with `[]` also inserts it. The model's `Get` does not insert. The special-token id properties only read keys that a load always puts in.
- The `id_to_token_map_py` and `token_to_id_map_py` properties are the `Vocab` datatype's fields.
- The `pad_token`, `bos_token`, `eos_token` and `unk_token` properties (vocabulary.py:199-242) are the getters `Vocab.PadToken`, `Vocab.BosToken`, `Vocab.EosToken` and `Vocab.UnkToken`, which read `specials`. They have no contract of their own. `NewVocab`'s `ensures r.value.specials == s` is what makes them return the strings given at construction.
- The BLEU test file exercises scoring functions whose source is not part of this model, and its assertions compare floating-point scores.
