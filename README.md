# GoNotes core, modelled in Dafny

GoNotes is a collection of Go study programs. This project models the small
sequential pieces among them and proves properties of those models:

- **Chat broadcaster** (`src/ch8/chat/chat.go`): one event processor owns the
  registry of connected clients. Each client is the pair (name, outgoing
  channel). A channel is modelled as the lines sent on it so far plus a
  closed flag. The model has one method per event: message, entering and
  leaving. It also models the lines that a connection's own handler sends:
  the name prompt, the greeting, the arrival and the idle-timeout departure.
- **Bounded FIFO queue** (`concurrency/time/time1.go`): a buffered channel of
  capacity n, whose non-blocking `Put` and `Get` report `ErrFull` and
  `ErrEmpty`.
- **Running average** (`Generics/medium.go`, `int` instantiation only): an
  append-only slice. Its mean is a 64-bit, wrapping sum divided by the
  length with truncating division.
- **String checks and parsers**:
  - the per-word YES/NO rule of `Ozon/3.go`;
  - the file name taken from a Content-Disposition header
    (`pcap/fileClient/main.go`);
  - the `meta` struct-tag parser (`reflect/tagExample.go`);
  - `countDigits` and `fillStats` (`concurrency/context/context2.go`).
- **Small tables and builders**:
  - the URL shortener's table (`PlayDocker/src/main.go`);
  - the pizza builders and their director (`builder/Pizza.go`);
  - the four vehicle factories (`abstractFactory/mine.go`);
  - `multyply` with its deferred update (`Errors/deffer.go`).

There is one module per Go file. Two shared modules model the parts of Go's
standard library that these programs rely on:

- `GoStrings` covers `strings.Split`, `Join`, `HasPrefix`, `TrimPrefix`,
  `TrimSpace` and `Trim`, and the `%d` verb.
- `GoInts` covers the 64-bit `int` with two's-complement wrap-around, and
  division that truncates toward zero.

Strings are modelled as sequences of Unicode code points, which is how Go's
`range` and `[]rune` see them. The byte-level limits of this choice are listed under
"## Left out".

Where Go state is updated in place, the model uses classes whose methods
change fields. This covers the chat registry and channels, the queue buffer,
the average's slice, the URL table and the pizza builders. Pure code is
modelled as functions and lemmas. The loops in `countDigits`, `fillStats`,
`Val`, the Ozon rune check, the tag parser and the header scan are methods
with loop invariants.

On entering, only the newcomer receives the "User <name> is online" lines, one per
connected client (chat.go:42-45). The other clients learn of the arrival only through
"<who> has arrived" (chat.go:68). `close` of a closed channel panics (chat.go:49), so
Leave requires an open channel.

## Model

| member | source | states |
|---|---|---|
| `Chat.Broadcaster.constructor` | src/ch8/chat/chat.go:31 | the broadcaster starts with an empty registry |
| `Chat.Broadcaster.Broadcast` | src/ch8/chat/chat.go:34-39 | a message is appended to the channel of every registered client, whatever the iteration order; no other channel changes, and the registry does not change |
| `Chat.Broadcaster.Enter` | src/ch8/chat/chat.go:41-45 | the client joins the registry. Only the newcomer's channel grows, by one "User <name> is online" line per client in the new registry, itself included. The lines follow one iteration order that lists every client exactly once |
| `Chat.Broadcaster.Leave` | src/ch8/chat/chat.go:47-52 | the client leaves the registry and its channel is closed. Each remaining client gets "User <name> has left"; the departing channel gets nothing. Closing an already closed channel panics, so an open channel is required |
| `Chat.Broadcaster.Register` | src/ch8/chat/chat.go:61-70 | a fresh channel gets the prompt and "You are <who>". Every client registered before gets "<who> has arrived". Only then does the client enter, so its own channel holds exactly the prompt, the greeting and the online lines |
| `Chat.Broadcaster.Relay` | src/ch8/chat/chat.go:75 | a chat line "<who>: <text>" reaches every registered client, the sender included |
| `Chat.Broadcaster.IdleTimeout` | src/ch8/chat/chat.go:83-85 | on timeout the session leaves, then broadcasts "<who> has left", so the remaining clients get two departure lines |
| `Chat.OnlineLinesShape` | src/ch8/chat/chat.go:43-45 | there is one online line per enumerated client, and the i-th line names the i-th client |
| `Chat.EnumerationSize` | src/ch8/chat/chat.go:43 | ranging over the registry visits as many clients as it holds |
| `Chat.SendToAllEffect` | src/ch8/chat/chat.go:37-39 | a broadcast appends exactly the message to each listed channel, leaves every other channel untouched, and never opens or closes a channel |
| `Chat.NoOwnArrival` | src/ch8/chat/chat.go:67-70 | the newcomer's channel never contains its own arrival line |
| `Chat.JoinExample` | src/ch8/chat/chat.go:61-70 | after alice and then bob register, alice's channel holds the prompt, her greeting, "User alice is online" and "bob has arrived". Bob's holds four lines, starting with the prompt and his greeting, and never his own arrival |
| `Chat.SameNameExample` | src/ch8/chat/chat.go:19-22 | two clients named alice on two channels are two registry entries. When the first times out, only the second stays registered, the first channel is closed, and the second channel ends with both departure lines |
| `Chat.TwoDepartureLines` | src/ch8/chat/chat.go:84-85 | after a timeout, each remaining client's channel ends with "User <who> has left" then "<who> has left"; the departed channel is closed and gets no new line |
| `BoundedQueue.Queue.MakeQueue` | obs/GoNotes/concurrency/time/time1.go:50-52 | a new queue is empty and has capacity n |
| `BoundedQueue.Queue.Put` | obs/GoNotes/concurrency/time/time1.go:36-47 | when not full, the value goes to the back and nil is returned. When full, ErrFull is returned and the contents are unchanged. A blocking Put is only made when it can proceed. The count stays within the capacity |
| `BoundedQueue.Queue.Get` | obs/GoNotes/concurrency/time/time1.go:21-31 | when not empty, the oldest value is returned and removed, with nil. When empty, (0, ErrEmpty) is returned and nothing changes. The count stays within the capacity |
| `BoundedQueue.Example` | obs/GoNotes/concurrency/time/time1.go:57-68 | three non-blocking Puts into a capacity-3 queue return nil. The queue is then full, so the final blocking Put can never return |
| `BoundedQueue.FifoExample` | obs/GoNotes/concurrency/time/time1.go:13 | values come out in the order they went in, and an emptied queue reports ErrEmpty |
| `RunningAverage.Avg.constructor` | obs/GoNotes/Generics/medium.go:32 | an average starts with no values |
| `RunningAverage.Avg.Add` | obs/GoNotes/Generics/medium.go:11-13 | val is appended at the end and earlier values are unchanged; the same receiver is returned, so calls chain |
| `RunningAverage.Avg.Val` | obs/GoNotes/Generics/medium.go:18-27 | the loop's wrapping running sum, divided by the count, equals the mean of the values; 0 when there are none; the slice is not modified |
| `RunningAverage.MeanBetween` | obs/GoNotes/Generics/medium.go:22-26 | when the sum fits, the mean of values in [lo, hi] lies in [lo, hi] |
| `RunningAverage.MeanTruncates` | obs/GoNotes/Generics/medium.go:26 | the mean is the quotient truncated toward zero: the remainder is smaller than the count and has the sign of the sum |
| `RunningAverage.SumBetween` | obs/GoNotes/Generics/medium.go:23-25 | the sum of n values in [lo, hi] lies in [n·lo, n·hi] |
| `RunningAverage.Example` | obs/GoNotes/Generics/medium.go:32-34 | chaining Add(4).Add(3).Add(2) on one receiver holds [4, 3, 2], and Val() is 3 |
| `OzonWords.CheckWord` | Ozon/3.go:21-34 | the flag survives the rune loop exactly when every rune satisfies the rule |
| `OzonWords.Answers` | Ozon/3.go:18-40 | exactly u lines are produced, and line i is YES iff word i is accepted, otherwise NO |
| `OzonWords.AcceptedIff` | Ozon/3.go:23-31 | a word is accepted iff its last rune equals its first, and every interior rune that differs from the first lies between two equal neighbours |
| `OzonWords.OneRuneAndLastRune` | Ozon/3.go:28-31 | a one-rune word is accepted; a word whose last rune differs from its first is not |
| `ContentDisposition.FileName` | obs/GoNotes/pcap/fileClient/main.go:43-59 | the name is never empty. An empty header gives "downloaded_file.pcap", and so does a header with no matching part. Otherwise the first matching part gives the name, or the default when its value is empty |
| `ContentDisposition.FirstMatchUnique` | obs/GoNotes/pcap/fileClient/main.go:48-52 | only one part can be the first match |
| `ContentDisposition.LeadingSpaceKeepsKey` | obs/GoNotes/pcap/fileClient/main.go:49-50 | a matching part with leading white space keeps that white space and "filename=" at the front of its value |
| `ContentDisposition.QuoteTrimKeepsPrefix` | obs/GoNotes/pcap/fileClient/main.go:50 | trimming quotes keeps every prefix that starts and ends with a non-quote |
| `ContentDisposition.KeyAfterSpaces` | obs/GoNotes/pcap/fileClient/main.go:49 | in a matching part, "filename=" directly follows the leading white space |
| `ContentDisposition.OneSpaceBeforeKeyMatches` | obs/GoNotes/pcap/fileClient/main.go:49 | one white-space character before "filename=..." still matches |
| `ContentDisposition.LeadingSpaceExample` | obs/GoNotes/pcap/fileClient/main.go:49-50 | ` filename="x"` matches and yields ` filename="x` |
| `ContentDisposition.EmptyQuotedExample` | obs/GoNotes/pcap/fileClient/main.go:50-59 | `filename=""` matches but yields the empty value, so the default is used |
| `ContentDisposition.LeadingSpaceHeader` | obs/GoNotes/pcap/fileClient/main.go:43-59 | for the whole header `attachment; filename="x"`, the name returned is ` filename="x` |
| `ContentDisposition.IntendedFilenameValue` | obs/GoNotes/pcap/fileClient/main.go:49-50 | the corrected extraction removes "filename=" from the space-trimmed part; its result never starts or ends with a quote |
| `ContentDisposition.IntendedValueRoundTrip` | obs/GoNotes/pcap/fileClient/main.go:49-50 | the corrected extraction gives back a quoted name after any leading white space |
| `ContentDisposition.SpacesBeforeKeyTrimmed` | obs/GoNotes/pcap/fileClient/main.go:49 | TrimSpace removes exactly the white space in front of a "filename=" part |
| `ContentDisposition.QuotedNameTrimmed` | obs/GoNotes/pcap/fileClient/main.go:50 | trimming quotes from "\"name\"" gives back the name when the name has no quote at either end |
| `MetaTag.ParseMeta` | obs/GoNotes/reflect/tagExample.go:23-37 | over the comma-split parts: isRequired iff some part is exactly "required". The description is the text after "description:" in the last part carrying it, or "" if none does. It never contains ',' |
| `MetaTag.ParseParts` | obs/GoNotes/reflect/tagExample.go:28-37 | the same for the parts loop; a later description part overwrites an earlier one |
| `MetaTag.IdExample` | obs/GoNotes/reflect/tagExample.go:10 | parsing the tag "id,primary_key" gives (false, "") |
| `MetaTag.NameExample` | obs/GoNotes/reflect/tagExample.go:11 | parsing the tag "name,required,description:Product name" gives (true, "Product name") |
| `MetaTag.DescriptionExample` | obs/GoNotes/reflect/tagExample.go:13 | parsing the tag "description,optional,description:Detailed product description" gives (false, "Detailed product description"); the bare "description" part lacks the colon |
| `DigitStats.CountDigits` | obs/GoNotes/concurrency/context/context2.go:63-71 | the loop counts exactly the digit runes of the word |
| `DigitStats.DigitCountAppend` | obs/GoNotes/concurrency/context/context2.go:65-69 | the count is additive over concatenation |
| `DigitStats.DigitCountBounds` | obs/GoNotes/concurrency/context/context2.go:64-70 | the count never exceeds the rune count. It equals it iff every rune is a digit, and it is 0 iff no rune is (so the empty word counts 0) |
| `DigitStats.ExampleCounts` | obs/GoNotes/concurrency/context/context2.go:74-75 | main's words "0ne", "1wo", "thr33" and "4068" count 1, 1, 2 and 4 |
| `DigitStats.FillStats` | obs/GoNotes/concurrency/context/context2.go:52-58 | the keys are exactly the words of the pairs, and each word maps to the count in its last pair |
| `DigitStats.WordsMembership` | obs/GoNotes/concurrency/context/context2.go:54-56 | a word is a key iff some pair carries it |
| `DigitStats.LastPairExists` | obs/GoNotes/concurrency/context/context2.go:55 | every word in the input has a last pair, and that pair decides its value |
| `DigitStats.OverwriteExample` | obs/GoNotes/concurrency/context/context2.go:55 | a later pair for the same word overwrites the earlier one |
| `UrlShortener.Shortener.constructor` | PlayDocker/src/main.go:11 | the table starts empty |
| `UrlShortener.Shortener.Shorten` | PlayDocker/src/main.go:15-34 | a non-POST request gives 405 and a POST with an empty url gives 400, both leaving the table unchanged. Otherwise the url is stored under "http://localhost:8080/<size+1>", a key not yet in use, so the table grows by exactly one, and the body names the key |
| `UrlShortener.Shortener.RedirectTo` | PlayDocker/src/main.go:36-48 | a present path gives a 308 redirect to the stored url, an absent one 404; the table never changes |
| `UrlShortener.ShortenTwice` | PlayDocker/src/main.go:23-29 | shortening the same url twice hands out "http://localhost:8080/1" and then "http://localhost:8080/2", two different keys; the table holds both, so nothing is deduplicated. The request path "/1" still gives 404 |
| `UrlShortener.FreshKey` | PlayDocker/src/main.go:23-26 | the next key is never in use yet |
| `UrlShortener.SlashPathNotFound` | PlayDocker/src/main.go:37-39 | no stored key starts with '/', so a request path is never found |
| `UrlShortener.Shortener.RedirectIntended` | PlayDocker/src/main.go:37-47 | the corrected lookup resolves the request path against the host first |
| `UrlShortener.RequestPathOfKey` | PlayDocker/src/main.go:23 | the path "/<k>" resolved against the host is the k-th short URL |
| `UrlShortener.FollowFirstLink` | PlayDocker/src/main.go:23-47 | after one shorten, the handler as written answers 404 for "/1", while the corrected lookup redirects to the stored url |
| `GoStrings.SplitJoin` | obs/GoNotes/reflect/tagExample.go:24 | joining the parts of a split gives the input back |
| `GoStrings.SplitPartsFree` | obs/GoNotes/reflect/tagExample.go:24 | no part of a split contains the separator |
| `GoStrings.JoinSplit` | obs/GoNotes/pcap/fileClient/main.go:47 | splitting undoes joining when no part contains the separator |
| `GoStrings.ParseDecimalOfDecimal` | PlayDocker/src/main.go:23 | the `%d` text of a number reads back as that number |
| `GoStrings.DecimalInjective` | PlayDocker/src/main.go:23 | different numbers format to different `%d` texts |
| `GoStrings.DropTrailingOnlyCut` | obs/GoNotes/pcap/fileClient/main.go:50 | Trim removes only cutset characters from the end |
| `GoStrings.DropLeadingRun` | obs/GoNotes/pcap/fileClient/main.go:49 | a run of cut characters in front of a kept one is exactly what is trimmed |
| `GoInts.WrapAdd` | obs/GoNotes/Generics/medium.go:24 | a running sum that wraps at every step ends where the exact sum wraps to |
| `GoInts.WrapDouble` | obs/GoNotes/Errors/deffer.go:6-7 | doubling a wrapped product wraps like doubling the exact product |
| `GoInts.WrapUnique` | obs/GoNotes/Errors/deffer.go:7 | the int64 congruent to a value modulo 2^64 is unique |
| `GoInts.QuotRemainder` | obs/GoNotes/Generics/medium.go:26 | Go's `/` leaves a remainder smaller than the divisor and with the dividend's sign |
| `GoInts.QuotBetween` | obs/GoNotes/Generics/medium.go:26 | dividing by a positive n keeps a dividend in [n·lo, n·hi] within [lo, hi] |
| `DeferredMultiply.Multyply` | obs/GoNotes/Errors/deffer.go:5-8 | the deferred closure doubles the result of `x * x`: 2·x·x wrapped to 64 bits. The result is always even, and equals 2·x·x, non-negative, when that fits |
| `DeferredMultiply.Example` | obs/GoNotes/Errors/deffer.go:10-11 | multyply(5) returns 50 |
| `DeferredMultiply.DoubledSquareOfNegation` | obs/GoNotes/Errors/deffer.go:5-7 | negating x (with wrap-around) does not change the result |
| `PizzaBuilders.PizzaBuilder.NewMargherita` | obs/GoNotes/CleanCode/Patterns/Go/builder/Pizza.go:29-31 | a new Margherita builder holds the zero pizza |
| `PizzaBuilders.PizzaBuilder.NewPepperoni` | obs/GoNotes/CleanCode/Patterns/Go/builder/Pizza.go:62-64 | a new Pepperoni builder holds the zero pizza |
| `PizzaBuilders.PizzaBuilder.SetSize` | obs/GoNotes/CleanCode/Patterns/Go/builder/Pizza.go:33-36 | only the size changes, and the receiver is returned |
| `PizzaBuilders.PizzaBuilder.AddCheese` | obs/GoNotes/CleanCode/Patterns/Go/builder/Pizza.go:38-41 | only cheese changes, to true; the receiver is returned |
| `PizzaBuilders.PizzaBuilder.AddPepperoni` | obs/GoNotes/CleanCode/Patterns/Go/builder/Pizza.go:43-46 | a no-op for Margherita, and for Pepperoni (lines 76-79) only pepperoni changes, to true. A Margherita pizza never has pepperoni |
| `PizzaBuilders.PizzaBuilder.AddVeggies` | obs/GoNotes/CleanCode/Patterns/Go/builder/Pizza.go:48-51 | only veggies changes, to true; the receiver is returned |
| `PizzaBuilders.PizzaBuilder.Build` | obs/GoNotes/CleanCode/Patterns/Go/builder/Pizza.go:53-55 | the current pizza is returned and nothing changes |
| `PizzaBuilders.Director.constructor` | obs/GoNotes/CleanCode/Patterns/Go/builder/Pizza.go:96-98 | the director keeps the builder it is given |
| `PizzaBuilders.Director.ConstructPizza` | obs/GoNotes/CleanCode/Patterns/Go/builder/Pizza.go:101-106 | the size becomes "Large" and cheese and veggies become true; pepperoni becomes true only for the Pepperoni builder |
| `PizzaBuilders.AddTwice` | obs/GoNotes/CleanCode/Patterns/Go/builder/Pizza.go:38-51 | every Add* is idempotent |
| `PizzaBuilders.Example` | obs/GoNotes/CleanCode/Patterns/Go/builder/Pizza.go:108-126 | main builds (Large, cheese, no pepperoni, veggies) and (Large, cheese, pepperoni, veggies) |
| `VehicleFactory.Drive` | obs/GoNotes/CleanCode/Patterns/Go/abstractFactory/mine.go:32-38 | the line starts "Driving a " and ends with the car's model |
| `VehicleFactory.Ride` | obs/GoNotes/CleanCode/Patterns/Go/abstractFactory/mine.go:41-47 | the line starts "Riding a " and ends with the motorcycle's model |
| `VehicleFactory.CreateCar` | obs/GoNotes/CleanCode/Patterns/Go/abstractFactory/mine.go:58-89 | only the Tesla and BMW factories return a car, and never a car of the other brand; the motorcycle factories return nil |
| `VehicleFactory.CreateMotorcycle` | obs/GoNotes/CleanCode/Patterns/Go/abstractFactory/mine.go:62-93 | only the Harley-Davidson and Yamaha factories return a motorcycle, and never one of the other brand; the car factories return nil |
| `VehicleFactory.ExactlyOneProduct` | obs/GoNotes/CleanCode/Patterns/Go/abstractFactory/mine.go:56-94 | each factory makes exactly one of a car and a motorcycle, with its fixed brand and model |
| `VehicleFactory.DriveInjective` | obs/GoNotes/CleanCode/Patterns/Go/abstractFactory/mine.go:32-38 | the Drive line determines brand and model |
| `VehicleFactory.RideInjective` | obs/GoNotes/CleanCode/Patterns/Go/abstractFactory/mine.go:41-47 | the Ride line determines brand and model |
| `VehicleFactory.ClientCode` | obs/GoNotes/CleanCode/Patterns/Go/abstractFactory/mine.go:97-109 | exactly two lines: the car line or "This factory does not produce cars.", then the motorcycle line or "This factory does not produce motorcycles." |
| `VehicleFactory.OneRefusalPerFactory` | obs/GoNotes/CleanCode/Patterns/Go/abstractFactory/mine.go:97-109 | every factory prints exactly one refusal line |
| `VehicleFactory.MainOutput` | obs/GoNotes/CleanCode/Patterns/Go/abstractFactory/mine.go:111-129 | the four factories print "Driving a Tesla Model S", "Driving a BMW X5", "Riding a Harley-Davidson Street 750" and "Riding a Yamaha YZF-R3", each with the matching refusal line |

## Left out

- Goroutines, unbuffered-channel synchronisation, the idle timer and socket I/O in chat.go, plus its accept loop. Events are method calls, and each outgoing channel is the list of lines sent on it. The interleaving of events from different connections is not modelled.
- Chat.Broadcaster.Enter: the iteration order of a Go map is unspecified, so the order of the "is online" lines is returned as a ghost enumeration rather than fixed.
- Chat.Broadcaster.IdleTimeout: what happens after conn.Close is not modelled. The loop would then wait forever, because the timer is not reset.
- BoundedQueue.Queue.MakeQueue: `make(chan int, n)` panics for a negative n; the model does not return that panic, and requires n >= 0 instead.
- BoundedQueue.Queue.Put and BoundedQueue.Queue.Get: a blocking call that would wait forever is excluded by a precondition. A Put into a full queue, or a Get from an empty one, can only be completed by another goroutine, which the sequential model does not have.
- The `float64` instantiation of Avg in medium.go, because floating point is not modelled.
- The sync.Mutex, the unlocked read of `len(urlMapping)` and the HTTP plumbing of PlayDocker/src/main.go, including the JSON map handler.
- The pipeline of context2.go (`countDigitsInWords`, `submitWords`, `countWords`) and the unused context. Its channels are never closed, so `fillStats` never returns there. FillStats reads its input as the finite sequence of pairs delivered.
- DigitStats.IsDigit: unicode.IsDigit is modelled on the ASCII digits '0'..'9' only; other Unicode decimal digits are not counted.
- `strings.Fields` in context2.go main and `fmt.Fscan` in Ozon/3.go: words are given already split. Ozon/3.go's words are non-empty, as Fscan tokens are.
- The reflection loop of tagExample.go that reads the tags, the HTTP request and file writing in fileClient/main.go, and all printing.
- Strings are sequences of code points, but `strings.Split`, `Trim`, `TrimSpace`, `HasPrefix` and struct tags work on Go's byte strings. A byte sequence that is not valid UTF-8 cannot be represented. An example is a Content-Disposition value carrying obs-text bytes, which Go passes through unchanged.
- Content-Disposition parts are split on ';' exactly as `strings.Split` does. Go's ASCII fast path in TrimSpace is not modelled separately, because it agrees with unicode.IsSpace.

## Findings

| source | as written | input that shows it | evidently intended | confidence | as-written member | corrected member |
|---|---|---|---|---|---|---|
| obs/GoNotes/pcap/fileClient/main.go:49-50 | "filename=" is removed from the untrimmed part, so a part after "; " keeps its leading space, the key and the opening quote | `attachment; filename="x"` gives the name ` filename="x` | remove the key from the trimmed part and get `x` | high (not executed) | `ContentDisposition.LeadingSpaceHeader` | `ContentDisposition.IntendedValueRoundTrip` |
| PlayDocker/src/main.go:37-39 | short URLs are stored with the scheme and host, but the redirect handler looks up the bare request path | shorten any url, then request `/1`: the answer is 404 | resolve the path against "http://localhost:8080" and redirect to the stored url | high (not executed) | `UrlShortener.SlashPathNotFound` | `UrlShortener.Shortener.RedirectIntended` |
