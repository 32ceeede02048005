# Front-matter splitter, modelled in Dafny

`front.go` (package `front`) takes a document that may open with a block
fenced by a three-byte delimiter such as `+++` or `---`. It returns the
trimmed text inside the block (the front matter) and the trimmed text after
it (the body), and then decodes the front matter as JSON or YAML.

The splitting has two parts:

- a `bufio.SplitFunc`, `Matter.split`, helped by `sniffDelim`, that cuts the
  buffered input into tokens;
- `Matter.splitFront`, whose loop takes those tokens one by one. Token 0
  becomes the front matter when it starts with the delimiter. The delimiter
  is stripped from token 1. Everything else goes to the body verbatim.

The model covers:

- the tokenizer step, as a pure function (`Front.Split`);
- the token sequence a scanner produces from an in-memory input
  (`Front.Tokens`), and the classification of that sequence
  (`Front.Classify`, `Front.Extract`);
- the scan loop itself, as a method with a while loop proved to compute
  `Extract` (`Front.SplitFront`);
- `convert`, the walk that turns maps with arbitrary keys into maps with
  string keys (`Values.Convert`);
- `JSONHandler`, `YAMLHandler` and the three entry points `JSONToMap`,
  `YAMLToMap` and `YAMLToJSON` (`Handlers`). The JSON and YAML libraries are
  passed in as decoder functions.

In the splitter, bytes are a `byte` newtype and Go strings are
`seq<byte>`. The library functions the splitter calls are modelled in module
`Bytes`:

- `strings.HasPrefix`;
- `bytes.Index`, as the first occurrence, with its contract proved;
- `strings.TrimSpace`, over ASCII white space.

`Matter` is a datatype holding the delimiter; `NewMatter(d)` is its
constructor `Matter(d)`. `Matter.Valid()` requires the delimiter to be
three bytes long. `sniffDelim` compares exactly three bytes, and both
`text[3:]` slices assume three, so every operation takes this as a
precondition.

The model follows the code as written, including where it behaves other
than a reader might expect:

- `split` never asks for more input. When the first three bytes equal the
  delimiter, `bytes.Index(data, delim)` is 0. The `atEOF` / `return 0, nil,
  nil` tail is therefore unreachable, and a non-empty buffer always yields a
  token (`Front.Split`, `Front.SplitIgnoresEOF`).
- The closing search accepts only an occurrence at offset `next > 0`. So
  `"++++++\nbody"` is a single token, and its front-matter candidate is
  `"+++\nbody"` (`Scenarios.AdjacentDelimiters`).
- A 3-byte input equal to the delimiter is flushed as one token. The
  classifier still strips it, which gives an empty candidate and
  `ErrIsEmpty`.
- `convert` does not descend into maps that already have string keys.
  Arbitrary-keyed maps can still be reached through them, so "every map at
  every depth has string keys" holds only through arbitrary-keyed maps and
  sequences (`Values.Normalized`).
- Two cases panic rather than returning a decode error:
  - a non-string key makes `k.(string)` panic;
  - a JSON top-level value that is not an object makes
    `rst.(map[string]interface{})` panic.

  Both are modelled as a `Panics` / `Panicked` outcome.
- `front_test.go` compares against `ErrNoFront`, which `front.go` does not
  define; the sentinel is `ErrIsEmpty` (`Front.Error.IsEmpty`).

Files: `bytes.dfy` (module `Bytes`), `front.dfy` (`Front`: tokenizer, token
sequence, classification, scan loop), `extract.dfy` (`Extraction`: lemmas
about whole documents), `scenarios.dfy` (`Scenarios`: worked documents for
`+++`), `values.dfy` (`Values`: decoded values and `convert`),
`handlers.dfy` (`Handlers`: handlers and entry points).

## Model

| member | source | states |
|---|---|---|
| `Front.SniffDelim` | front.go:70-75 | succeeds exactly when at least 4 bytes are buffered, and then yields a 3-byte prefix of the buffer; otherwise fails with `ErrIsEmpty` |
| `Front.Split` | front.go:108-127 | no token exactly when the buffer is empty at EOF, with advance 0; otherwise the token is a prefix of the buffer, the advance is its length, and the advance is positive for a non-empty buffer |
| `Front.SplitFlush` | front.go:112-115 | a non-empty buffer shorter than 4 bytes, or whose first 3 bytes differ from the delimiter, is one token and is consumed whole |
| `Front.SplitDelimited` | front.go:116-120 | if the buffer opens with the delimiter and the first later occurrence is at `k > 3`, the token is `data[..k]`, and what remains starts with the closing delimiter |
| `Front.SplitUnterminated` | front.go:116-121 | an opened buffer with no closing delimiter, or one directly after the opening, is one token, consumed whole, whatever `atEOF` is |
| `Front.SplitIgnoresEOF` | front.go:109-126 | for a non-empty buffer the step is the same with `atEOF` true or false and always yields a token: it never requests more input |
| `Front.Tokens` | front.go:81-88 | the scanner's tokens are non-empty and, concatenated in order, are exactly the input |
| `Front.Classify` | front.go:89-104 | `ErrIsEmpty` exactly when the front-matter candidate is shorter than 3 bytes, and no other error; neither the front matter nor the body begins or ends with white space |
| `Front.SplitFront` | front.go:77-105 | the loop, with its counter `n` equal to the index of the current token, returns exactly the front matter, body and error of `Extract` over the scanner's token sequence; `ErrIsEmpty` exactly when the front matter is shorter than 3 bytes |
| `Extraction.TokensOfFlush` | front.go:112-115 | input that does not open with the delimiter is a single token |
| `Extraction.TokensOfUnterminated` | front.go:116-121 | an opened but unclosed input is a single token |
| `Extraction.TokensOfDelimited` | front.go:116-119 | a block closed at `k` is the first token, and the rest of the tokens are those of `data[k..]`, which starts with the delimiter |
| `Extraction.FirstTokenLed` | front.go:90-94 | input that starts with the delimiter yields a first token that also starts with it |
| `Extraction.ExtractNoFront` | front.go:88-102 | input that does not start with the delimiter, including the empty input, gives empty front matter, `ErrIsEmpty`, and the trimmed input as the body |
| `Extraction.ExtractUnterminated` | front.go:88-104 | input that starts with the delimiter and is never closed gives the trimmed remainder as front matter and an empty body; `ErrIsEmpty` exactly when that remainder is shorter than 3 bytes |
| `Extraction.BodyAfterClose` | front.go:93-96 | the body contributions of the tokens after the block are exactly the bytes after the closing delimiter |
| `Extraction.ExtractDelimited` | front.go:88-104 | for `delim + mid + delim + rest`, where the first closing delimiter follows `mid`, the front matter is `mid` trimmed and the body is `rest` trimmed, with later delimiters in `rest` kept; `ErrIsEmpty` exactly when the trimmed `mid` is shorter than 3 bytes |
| `Scenarios.TitleAndBody` | front.go:88-104 | `"+++\ntitle: Hello\n+++\n# Body\n"` gives front matter `title: Hello`, body `# Body`, and no error |
| `Scenarios.EmptyDocument` | front.go:100-102 | the empty document gives `ErrIsEmpty` and an empty body |
| `Scenarios.JustBody` | front.go:100-102 | `"# Just body\n"` gives `ErrIsEmpty` and body `# Just body` |
| `Scenarios.SecondBlockIsBody` | front.go:93-96 | a second `+++` block after the first one stays in the body verbatim |
| `Scenarios.EmptyBlock` | front.go:101-102 | `"+++\n+++\nbody"` gives an empty front matter, `ErrIsEmpty`, and body `body` |
| `Scenarios.AdjacentDelimiters` | front.go:118-121 | `"++++++\nbody"` is not split: the front matter is `+++\nbody`, the body is empty, and there is no error |
| `Bytes.Index` | front.go:116-118 | `bytes.Index`: returns the offset of the first occurrence of the pattern, or -1 when it does not occur |
| `Bytes.TrimSpace` | front.go:92 | `strings.TrimSpace`: the result is no longer than the input, neither begins nor ends with white space, and is empty for an all-white-space input |
| `Bytes.TrimSpaceIsSlice` | front.go:92 | `TrimSpace` result is a slice of its input, with only white space outside that slice |
| `Bytes.TrimSpaceIdempotent` | front.go:100 | trimming an already-trimmed text changes nothing |
| `Values.Convert` | front.go:157-172 | an arbitrary-keyed map becomes a string-keyed map with the same keys (as strings), each value converted; a sequence keeps its length and each element is converted; scalars and string-keyed maps are unchanged; the result is `Normalized` |
| `Values.ConvertFixesNormalized` | front.go:158-171 | a value with no reachable arbitrary-keyed map is convertible and left unchanged |
| `Values.ConvertIdempotent` | front.go:158-171 | converting a converted value changes nothing |
| `Handlers.JSONHandler` | front.go:134-141 | a decoder error is returned as is; a top-level object yields its map; any other decoded value panics |
| `Handlers.YAMLHandler` | front.go:144-155 | a decoder error is returned as is; a panic happens exactly when some top-level value holds a non-string key that `convert` reaches; otherwise every top-level value is replaced by its conversion, the keys are unchanged, and each value is `Normalized` |
| `Handlers.JSONToMap` | front.go:32-42 | a split error gives an empty map with the split body and the error; otherwise a decoder error gives nil, an empty body and the error, an object gives its map with the split body and no error, and any other value panics; input without a leading delimiter gives an empty map, the trimmed input as body, and `ErrIsEmpty`, whatever the decoder |
| `Handlers.YAMLToMap` | front.go:45-55 | a split error gives an empty map with the body; a decoder error gives nil, an empty body and the error; it panics exactly when a top-level value cannot be converted; a clean split and a clean decode with no such value succeed, with the split body and each value converted; input without a leading delimiter gives an empty map, the trimmed input and `ErrIsEmpty` |
| `Handlers.YAMLToJSON` | front.go:58-68 | a split error gives empty bytes with the body and the error; otherwise a transcoder error gives nil, an empty body and the error, and transcoded bytes come back with the split body; it never panics; input without a leading delimiter gives empty bytes, the trimmed input and `ErrIsEmpty` |

## Left out

- Reading from an arbitrary `io.Reader` is not modelled. The input is one
  in-memory byte sequence that fits the scanner's buffer: a `bytes.Reader`
  of at most 1 MB, which is what the tests use. The scanner therefore calls
  `split` with `atEOF` false while bytes remain, and with an empty buffer at
  EOF.
- Partial reads, buffer growth and the 1 MB limit (`bufio.ErrTooLong`) are
  not modelled. The same goes for I/O errors, which `splitFront` drops
  because it never checks `s.Err()`.
- JSON and YAML decoding (`json.Unmarshal`, `yaml.Unmarshal`,
  `yaml.YAMLToJSON`) are foreign library calls. They are parameters of the
  handlers and entry points.
- `Bytes.TrimSpace`: trims only the ASCII white-space bytes (tab, newline,
  vertical tab, form feed, carriage return, space). The Unicode white space
  that `strings.TrimSpace` also removes (such as U+0085 and U+00A0) is left
  out, because the model has no UTF-8 decoding.
- `dropSpace` is unused by the package and is not modelled.
- `Front.Split`: the `err` result, which is always nil, is not modelled.
- Delimiters whose length is not 3 are excluded by `Matter.Valid()`. With
  such a delimiter, `sniffDelim` never matches or the `text[3:]` slices can
  panic.
- `Values.Convert`: requires `Convertible`, so a non-string key is not
  modelled inside the walk. Its panic appears at the one call site,
  `YAMLHandler`, as a `Panics` outcome.
- In `convert`, Go's map iteration order does not matter to the result and
  is not modelled. Neither is the in-place overwrite of the caller's slice
  `x[i]`: the model builds a new sequence.
- The decoded values (`Values.Key.KString`, `Values.Value.Scalar`, the
  keys of `Handlers.Object`) and library error messages
  (`Front.Error.Library`) use Dafny `string`, a sequence of characters,
  rather than bytes. Their byte encoding is not modelled, because the
  splitter never looks at it.
- `sigs.k8s.io/yaml` decodes YAML by converting it to JSON first, so with
  that library `YAMLHandler` never receives an arbitrary-keyed map and its
  `Panics` outcome cannot arise in practice. The model keeps it because it
  holds for any decoder.
- Scalars are kept as opaque text. Float64 numbers, booleans and nil are
  not told apart, because `convert` never looks inside them.
