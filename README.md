# Portfolio site logic, modelled in Dafny

This project models the logic inside the components of a single-page React
portfolio. Four parts are modelled:

- **Contact form** (`contact.dfy`). It covers the per-field validation `validateForm` runs before a
  message is sent: the trimmed name, subject and message must be non-blank, and
  the trimmed email must match `/^[^\s@]+@[^\s@]+\.[^\s@]+$/`. It also covers the
  field-change handler, which blanks a field's error as the user types, and the
  submit handler's state changes over the form data, the error map and the
  status (`idle` / `success` / `error`).
- **Header** (`header.dfy`). It covers the scroll handler, which sets the "scrolled" style
  flag above 50 px and highlights the first of seven sections whose half-open
  span `[offsetTop, offsetTop + offsetHeight)` holds `scrollY + 100`. If no section
  qualifies, the highlight stays where it was. It also covers the nav-click handler, the menu
  toggle, and the `isActive` flag of each navigation entry.
- **Skill badges** (`skills.dfy`). It covers `getInitials` (split on spaces, first
  characters, upper-cased, first two). It covers `getColorFromName`, a string hash that
  uses a 32-bit left shift and picks one of eight palette entries by `|hash| mod 8`.
  It also covers the logo-or-initials decision driven by a one-way `imageError` flag.
- **Project cards** (`project_modal.dfy`). It covers the case-insensitive status colour,
  the chip row with at most three technologies plus a "+N" badge, and the optional demo link.

`text.dfy` holds the string helpers shared by these parts. These are ECMAScript's
`trim` and its white-space set, and ASCII case mapping. `optional.dfy` holds the
`Option` type.

Component state becomes a class: `ContactForm`, `NavState` and `SkillIcon`.
Each handler that updates state becomes a method. The method is proved against
a pure function, and the lemmas are proved about that function.

Behaviour of the code worth noting:
- The payload handed to the mail service is the untrimmed form data. Only
  the validation trims.
- Typing into a field whose error is set does not delete the error. It sets
  the error to `""`, so the key stays in the map (`ClearError`).
- No guard against timers or sends that overlap is modelled. The code has none.

## Model

| member | source | states |
|---|---|---|
| Text.Trim | src/components/Contact.tsx:27-30 | the trimmed string is empty iff the input is all ECMAScript white space; otherwise it starts and ends with a non-space character and is no longer than the input |
| Text.TrimRemovesOnlyOuterSpace | src/components/Contact.tsx:27-30 | the trimmed string is a contiguous slice of the input, and only white space lies before and after it |
| Text.TrimKeepsUnpadded | src/components/Contact.tsx:28 | a string with no white space at either end is its own trim |
| Text.ToLower | src/components/ProjectModal.tsx:91 | `toLowerCase` keeps the length and lower-cases each character |
| Text.ToUpper | src/components/Skills.tsx:18 | `toUpperCase` keeps the length and upper-cases each character |
| Contact.FormData.With | src/components/Contact.tsx:54-57 | `{ ...prev, [name]: value }` sets the named field and leaves the other three as they were |
| Contact.MatchesEmailPattern | src/components/Contact.tsx:38 | the regex `/^[^\s@]+@[^\s@]+\.[^\s@]+$/` read segment by segment: a non-empty run of `[^\s@]`, an '@', a run, a '.', and a final run; its meaning is fixed by `EmailPatternShape` |
| Contact.EmailPatternShape | src/components/Contact.tsx:38 | the regex accepts exactly the strings that have no white space, exactly one '@' with something before it, and a '.' after the '@' that is neither the first nor the last character of the domain |
| Contact.SplitHasShape | src/components/Contact.tsx:38 | a string the regex's three segments match has that shape |
| Contact.ShapeSplits | src/components/Contact.tsx:38 | a string of that shape is matched by the regex's three segments |
| Contact.ValidationErrors | src/components/Contact.tsx:24-43 | name, subject and message each have an entry iff blank, with their own messages; email has an entry iff its trimmed value fails the regex: "Email is required." when blank, the format message otherwise; all rules run, with no short-circuit |
| Contact.IsSubmittable | src/components/Contact.tsx:45-46 | a form passes validation when name, subject and message are not all white space and the trimmed email matches the regex; `ValidIffNoErrors` ties it to the empty error map |
| Contact.RuleByRule | src/components/Contact.tsx:25-43 | a map that holds exactly each field's rule outcome on its trimmed value is the validation error map |
| Contact.ValidIffNoErrors | src/components/Contact.tsx:45-46 | the error map is empty iff name, subject and message are non-blank and the trimmed email matches the regex |
| Contact.BlankEmailIsMissingNotMalformed | src/components/Contact.tsx:39-43 | a blank email is reported as required, never as malformed |
| Contact.AllBlankGetsFourErrors | src/components/Contact.tsx:27-43 | an all-blank form gets exactly four errors, each field with its own message |
| Contact.ExampleFormIsValid | src/components/Contact.tsx:38-43 | a filled-in form with the address `jo@x.com` validates with no errors |
| Contact.NoAtIsMalformed | src/components/Contact.tsx:39-43 | for every form, whatever its other fields hold, a non-blank address with no '@' gets the format error |
| Contact.NotAnEmailIsOnlyFormatError | src/components/Contact.tsx:33-43 | when name, subject and message are non-blank, a non-blank address with no '@' gets the format error and no other field gets an error |
| Contact.ClearError | src/components/Contact.tsx:59-62 | a present, non-empty error for the edited field becomes `""`; the map's keys and every other entry are unchanged; an absent or empty entry leaves the map as it was |
| Contact.ContactForm.constructor | src/components/Contact.tsx:13-21 | the form starts with four empty fields, no errors and status idle |
| Contact.ContactForm.ValidateForm | src/components/Contact.tsx:24-47 | the method stores the validation error map and returns true iff that map is empty, which holds iff the form is submittable |
| Contact.ContactForm.HandleChange | src/components/Contact.tsx:52-63 | the edited field takes the new value, and the error map becomes `ClearError` of the old one |
| Contact.ContactForm.HandleSubmit | src/components/Contact.tsx:65-82 | errors are recomputed; an invalid form sets status error and sends nothing; a valid form sends the untrimmed data and leaves status unchanged |
| Contact.ContactForm.SendSucceeded | src/components/Contact.tsx:83-86 | after a successful send, status is success, the four fields are empty and the error map is empty |
| Contact.ContactForm.SendFailed | src/components/Contact.tsx:89-92 | after a failed send, status is error and the typed data is kept |
| Contact.ContactForm.StatusTimeout | src/components/Contact.tsx:73 | when the 4000 ms timer fires, status returns to idle |
| Header.Qualifies | src/components/Header.tsx:19-24 | a section qualifies when its element exists and `offsetTop <= probe < offsetTop + offsetHeight`, a half-open span |
| Header.FirstQualifying | src/components/Header.tsx:18-29 | the scan returns the first index at or after its start whose element exists and whose span holds the probe; it returns none only when no such index exists |
| Header.ActiveAfterScroll | src/components/Header.tsx:15-29 | the first qualifying section in list order becomes active; if none qualifies, the previous section stays; the result is always one of the seven ids or the previous value |
| Header.LaterSectionsIrrelevant | src/components/Header.tsx:24-27 | once a section qualifies, the layout of later sections does not affect the outcome (the loop breaks) |
| Header.ScrollExamples | src/components/Header.tsx:16-27 | at the top of the page the hero is active; at 750 px the probe (850) has left the hero's [0,800) span and lands in about's span |
| Header.NavItemsFollowSections | src/components/Header.tsx:36-44 | the navigation entries link to the seven sections in the scanned order |
| Header.SectionsDistinct | src/components/Header.tsx:15 | no two sections share an id |
| Header.ActiveFlags | src/components/Header.tsx:117 | entry i is active iff the highlighted section equals its href; so at most one entry is active, and one is active exactly when the highlighted section is one of the seven |
| Header.NavState.constructor | src/components/Header.tsx:6-8 | the menu starts closed and not scrolled, with `#hero` active |
| Header.NavState.HandleScroll | src/components/Header.tsx:11-30 | `scrolled` is `scrollY > 50`, and the active section becomes `ActiveAfterScroll` of the previous one |
| Header.NavState.HandleNavClick | src/components/Header.tsx:52-54 | a nav click closes the menu and makes the clicked href active |
| Header.NavState.ToggleMenu | src/components/Header.tsx:79 | the menu button flips `isOpen` |
| Header.NavState.CloseMenu | src/components/Header.tsx:220 | the overlay closes the menu |
| Skills.Split | src/components/Skills.tsx:15 | `split(' ')` as JavaScript does it: at least one word; consecutive spaces give empty words; the empty string gives one empty word; `SplitWordsHaveNoSpace` and `SplitJoinRoundTrip` state its meaning |
| Skills.FirstLetters | src/components/Skills.tsx:16-17 | `.map(word => word[0]).join('')`: one character per non-empty word, none for an empty word, so never longer than the word list; `FirstLettersAreWordStarts` states its meaning |
| Skills.SplitWordsHaveNoSpace | src/components/Skills.tsx:15 | no word produced by `split(' ')` contains a space |
| Skills.SplitJoinRoundTrip | src/components/Skills.tsx:15 | joining the words of `split(' ')` with a space rebuilds the name |
| Skills.FirstLettersAppend | src/components/Skills.tsx:16-17 | taking first letters and joining distributes over concatenation of word lists |
| Skills.EmptyWordsAddNothing | src/components/Skills.tsx:15-17 | an empty word, as consecutive spaces produce, contributes nothing to the initials |
| Skills.FirstLettersAreWordStarts | src/components/Skills.tsx:14-17 | the joined `word[0]`s are exactly the name's non-space characters that come first or follow a space, in order |
| Skills.TakeTwo | src/components/Skills.tsx:19 | `slice(0, 2)` is the prefix of length min(2, length) |
| Skills.GetInitials | src/components/Skills.tsx:13-20 | the initials have at most two characters, and are the upper-cased word-start characters of the name in word order, cut to two |
| Skills.SingleWordInitial | src/components/Skills.tsx:14-19 | a single-word name gives exactly its upper-cased first character |
| Skills.NoStartsWithoutSpace | src/components/Skills.tsx:14-17 | inside a word with no space, no new word begins |
| Skills.LeadingSpaceIgnored | src/components/Skills.tsx:14-19 | a leading space does not change the initials |
| Skills.ToInt32 | src/components/Skills.tsx:29 | the shift operand is reduced to signed 32 bits: it agrees modulo 2^32 and is unchanged when already in range |
| Skills.ShiftLeft5 | src/components/Skills.tsx:29 | `hash << 5` is a signed 32-bit value congruent to 32·hash modulo 2^32 |
| Skills.HashStep | src/components/Skills.tsx:29 | one loop iteration: the character code plus `(hash << 5) - hash`, with the shift taken through `ShiftLeft5` |
| Skills.Hash | src/components/Skills.tsx:27-30 | the hash of a name: 0 for the empty name, and each character applies `HashStep` in order; `GetColorFromName`'s loop invariant ties the loop to it, and `HashBound` bounds it |
| Skills.HashBound | src/components/Skills.tsx:28-30 | after n characters, the hash's magnitude is at most n·(2^31 + 0x110000) |
| Skills.HashStaysExact | src/components/Skills.tsx:27-30 | for names of up to 2^21 characters, the hash stays below 2^53 in magnitude, so the code's double arithmetic is exact |
| Skills.ColorIndex | src/components/Skills.tsx:31 | the index lies in [0, 8) and is congruent to abs(hash) modulo 8 |
| Skills.ColorFromName | src/components/Skills.tsx:22-32 | the colour is always one of the eight palette entries |
| Skills.EmptyNameIsFirstColor | src/components/Skills.tsx:27-31 | the empty name leaves the hash at 0 and gets `bg-gray-600` |
| Skills.GetColorFromName | src/components/Skills.tsx:22-32 | the hash loop computes the hash of the whole name, and the method returns `ColorFromName`'s palette entry |
| Skills.SkillIcon.constructor | src/components/Skills.tsx:34 | a badge starts with no image error |
| Skills.SkillIcon.ShowsLogo | src/components/Skills.tsx:36 | `logoPath && !imageError`: the path is present and non-empty and no image error has happened |
| Skills.SkillIcon.OnImageError | src/components/Skills.tsx:43 | after an image error, the flag is set and the logo is no longer shown |
| Skills.SkillIcon.Render | src/components/Skills.tsx:36-53 | the logo is shown iff the path is present and non-empty and no image error occurred; otherwise an initials tile with at most two characters and a palette colour is shown |
| ProjectModal.LowerEqualsLiteral | src/components/ProjectModal.tsx:91 | comparing the lower-cased status with a lower-case literal is case-insensitive equality |
| ProjectModal.StatusColor | src/components/ProjectModal.tsx:90-97 | green iff the status equals "production" ignoring case; yellow iff "beta"; purple iff "completed"; grey otherwise, which covers "prototype" and every unknown status |
| ProjectModal.StatusColorIgnoresCase | src/components/ProjectModal.tsx:91 | two statuses that differ only in letter case get the same colour |
| ProjectModal.ListedStatusColors | src/components/ProjectModal.tsx:90-97 | the listed statuses Production, Beta, Completed and Prototype get green, yellow, purple and grey |
| ProjectModal.TechChips | src/components/ProjectModal.tsx:175-186 | the shown chips are the first min(3, n) technologies in order; the "+N" badge appears iff n > 3, and shown plus N equals n |
| ProjectModal.ChipsAccountForAll | src/components/ProjectModal.tsx:175-186 | the shown chips followed by the hidden ones make up the whole list, and the badge counts exactly the hidden ones |
| ProjectModal.DemoLink | src/components/ProjectModal.tsx:202-214 | the demo link appears iff the demo URL is defined and non-empty, and it points at that URL |
| ProjectModal.CardFor | src/components/ProjectModal.tsx:154-214 | a card's badge is `StatusColor` of the project's status, its chip row is `TechChips` of its technologies, the code link is the project's repository, and the demo link is `DemoLink` of its demo URL |

## Left out

- The mail service call is not modelled. A send is two outcomes: `SendSucceeded` and `SendFailed`. The service, template and key identifiers and the network are not part of the model.
- The 4000 ms timers are not modelled as timers. Only the moment one fires is modelled (`StatusTimeout`), and timers are never cancelled, as in the code. Their interleaving with later submissions is not captured.
- `console.warn` / `console.error` logging is not modelled.
- `scrollIntoView`, the listener registration on `window`, and React's batching of state updates are not modelled.
- Header.NavState.HandleScroll: takes the page layout as a parameter, a sequence of optional bounds, one per section. A missing element is `None`. Pixel values are whole numbers, so a fractional `scrollY` is not modelled.
- Header.NavState.IsActive: `activeSection === item.href` has no contract of its own. `ActiveFlags` states what the flags mean.
- Text.ToUpper: maps only ASCII letters. Unicode case mapping, including mappings that change the length (such as ß to SS), is not modelled.
- Text.ToLower: maps only ASCII letters, for the same reason.
- Skills.Hash: its integer steps equal the code's double arithmetic only while the hash stays below 2^53. `HashStaysExact` proves that for names of up to 2^21 characters. Rounding on longer names is not modelled.
- Skills.SkillIcon: models one badge while it stays mounted. The badge component is declared inside `Skills`, so a re-render of `Skills`, such as the one-time `inView` change, mounts fresh badges whose `imageError` starts false again. Across such re-renders the flag is not one-way, and the model does not capture that.
- Strings are sequences of Unicode scalar values. JavaScript's UTF-16 code units (for `word[0]`, `charCodeAt` and `length`) are not modelled, so a character outside the Basic Multilingual Plane differs.
- JSX layout, styling, animation, the static content lists and the other page sections are not modelled.
