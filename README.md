# bspwm core in Dafny

This project models the core of bspwm, a tiling window manager for X that is
driven over a Unix socket by the command-line client bspc, and proves
properties of that model. There is one Dafny module per source file:

- `Helpers` (helpers.h, helpers.c): MAX and MIN, the state-class predicates, the printer macros, unsigned_subtract, copy_string, is_hex_color, and the escaping tokenizer tokenize_with_escape as a class over `struct tokenize_state`.
- `Geometry` (geometry.c): is_inside, contains, area, boundary_distance, on_dir_side with its tightness as a parameter, rect_eq and rect_cmp, with 16-bit fields and the 16-bit wrap of the far corner.
- `Stack` (stack.c): the stacking list as a class whose field is the sequence of nodes from stack_head (bottom) to stack_tail (top). It covers insertion next to an anchor, unlinking, subtree removal, the levels, limit_above/limit_below, stack() and the feedback restack.
- `Subscribe` (subscribe.c): the subscriber list as a class, with add, remove, put_status and prune_dead_subscribers. print_report is a pure function of the monitors and desktops.
- `Parse` (parse.c): every parse_* function. The loop-based parsers (state transitions, degrees, selector modifiers) are methods proved against functions of the whole argument.
- `Jsmn` (jsmn.c, jsmn.h): the JSON tokenizer in its default build, as a class over jsmn_parser that fills an array of tokens in place.
- `Bspc` (bspc.c): the client's socket path, the framing of its arguments into one NUL-separated request, and the classification of the answer into standard output, standard error and the exit status.
- `Daemon` (bspwm.c): get_color_pixel, the -c/-s/-o options, the default configuration path, the restart argument vector, one pass of the main loop over the ready descriptors, and cleanup.
- `Types`, `Wrappers` and `Numeric`: the enumerations, an Option type, and the small subset of the C library conversions the parsers rely on.

Everything outside the process is an input. This covers the X server (its black pixel, the events it queues, the calls made to it), what manage_window answers for a pending rule, the environment, the success of socket calls and stream writes, and the chunks bspc receives. Calls handed on to code outside the core (handle_event, handle_message, window_above, window_below, put_status from stack()) are recorded as outputs or in a log. WM_NAME, CONFIG_NAME, CONFIG_HOME_ENV and VERSION come from bspwm.h, which is not part of this model; they are parameters.

## Model

| member | source | states |
|---|---|---|
| Helpers.Max | src/helpers.h:43 | MAX: the result is at least both arguments and is one of them |
| Helpers.Min | src/helpers.h:45 | MIN: the result is at most both arguments and is one of them |
| Helpers.StateClassesPartition | src/helpers.h:50-54 | every client state satisfies exactly one of IS_TILED, IS_FLOATING and IS_FULLSCREEN; IS_TILED holds exactly for tiled and pseudo-tiled |
| Helpers.UnsignedSubtract | src/helpers.h:110-117 | unsigned_subtract never goes below zero: a - b when b <= a, else 0 |
| Helpers.PrintersInjective | src/helpers.h:64-84 | STATE_STR, STATE_CHR, LAYER_STR, SPLIT_DIR_STR, AUTO_SCM_STR, LAYOUT_STR and LAYOUT_CHR give distinct texts for distinct values |
| Helpers.CopyString | src/helpers.c:144-155 | copy_string returns len + 1 bytes: the first len characters of str (fewer when a NUL comes first), then NUL up to and including the last byte |
| Helpers.IsHexColor | src/helpers.c:269-280 | is_hex_color holds exactly for seven characters: '#' and six hexadecimal digits |
| Helpers.Scan | src/helpers.c:306-326 | one token never runs past the string; it is no longer than what it consumed; when it stops before the end, the last consumed character is the separator and no escape is pending |
| Helpers.ScanEscaped | src/helpers.c:306-326 | tokenizing an escaped token followed by the separator (or the end) gives the token back and stops just past the separator: escaping round-trips |
| Helpers.ScanFrom | src/helpers.c:306-326 | the same round trip from any position of a fixed string |
| Helpers.TrailingBackslash | src/helpers.c:319-320 | a lone backslash at the end is dropped and leaves in_escape set |
| Helpers.ScanInto | src/helpers.c:302-328 | the copying loop fills a NUL-initialised buffer of the remaining length with the token, and leaves the position and escape flag of the specification |
| Helpers.TokenizeState.Next | src/helpers.c:292-329 | tokenize_with_escape: a new string resets the state; the buffer has the remaining length, holds the next token and is NUL after it; pos moves past the consumed separator and len drops by the consumed count; an exhausted state gives an empty token |
| Geometry.ToInt16 | src/geometry.c:82-83 | storing an int in a 16-bit coordinate keeps it modulo 2^16 and unchanged when it fits |
| Geometry.Area | src/geometry.c:66-69 | area is width times height, fits an unsigned 32-bit int, and is 0 exactly when a side is 0 |
| Geometry.Distance | src/geometry.c:86-95 | the `a > b ? a - b : b - a` of boundary_distance is the absolute difference of the two coordinates |
| Geometry.BoundaryDistanceOpposite | src/geometry.c:80-100 | boundary_distance North from r1 to r2 equals South from r2 to r1, and West equals East likewise |
| Geometry.BoundaryDistanceNorth | src/geometry.c:82-86 | without wrap-around, North is the absolute difference of r2's bottom pixel row and r1's top |
| Geometry.BoundaryDistance | src/geometry.c:80-100 | boundary_distance is a distance between two 16-bit coordinates, so it stays below 2^16 |
| Geometry.SharedRangeIsOverlap | src/geometry.c:175-192 | for non-empty rectangles the shared-range test, with its different third disjuncts, is exactly "the pixel ranges on the other axis meet" |
| Geometry.OnDirSide | src/geometry.c:110-193 | a rectangle on_dir_side accepts shares pixel columns (North, South) or rows (West, East) with r1; North at high tightness it starts above r1's top, and at any tightness above r1's bottom; West likewise with columns |
| Geometry.HighImpliesLow | src/geometry.c:117-172 | whatever passes on_dir_side at high tightness also passes at low tightness |
| Geometry.TightnessExample | src/geometry.c:117-181 | r2 = (0,50,100,100) is North of r1 = (0,0,100,100) at low tightness but not at high |
| Geometry.ContainsOrder | src/geometry.c:54-58 | contains is reflexive and transitive, and mutual containment is rect_eq |
| Geometry.ContainsInside | src/geometry.c:41-58 | a point inside a contained rectangle is inside the container, and the contained rectangle has no larger area |
| Geometry.IsInsideHalfOpen | src/geometry.c:41-45 | is_inside includes the top-left pixel and excludes the pixel just past the right edge and just past the bottom edge |
| Geometry.RectCmpSignFlip | src/geometry.c:221-236 | as written, comparing a 1x1 rectangle with an overlapping 65535x65535 one gives a negative result although the second area is larger, because the unsigned difference wraps |
| Geometry.RectCmpProperties | src/geometry.c:221-236 | the corrected comparison is antisymmetric, sorts a rectangle wholly below another after it (above, then left, first), is 0 only on equal areas, and agrees with the as-written one whenever the area difference fits an int |
| Geometry.RectCmp | src/geometry.c:221-236 | the corrected comparison sorts r1 after r2 only when r1 lies wholly below or wholly right of r2 or has the smaller area, and before it only in the mirrored cases |
| Stack.StackLevelOrder | src/stack.c:179-184 | stack_level lies in 0..8; a lower layer always gives a lower level; within a layer tiled sorts below floating below the rest; two clients share a level exactly when they share layer and state class |
| Stack.StackLevel | src/stack.c:179-184 | stack_level lies in 0..8, within the band of three levels that belongs to the client's layer |
| Stack.StackCmpProperties | src/stack.c:193-196 | stack_cmp is antisymmetric, transitive on negative results, zero exactly on equal levels and lies in -8..8 |
| Stack.StackCmp | src/stack.c:193-196 | stack_cmp lies in -8..8, is 0 exactly for the same layer and state class, and is negative whenever c1's layer is lower |
| Stack.RemoveFirstMultiset | src/stack.c:126-146 | unlinking an entry removes one occurrence of its node and nothing else |
| Stack.RemoveFirstKeeps | src/stack.c:126-146 | unlinking keeps the remaining entries in order, so a list sorted by level stays sorted |
| Stack.RemoveFirstNoDup | src/stack.c:155-166 | removing a leaf from a duplicate-free list leaves a duplicate-free list without that leaf |
| Stack.RemoveAllMultiset | src/stack.c:155-166 | remove_stack_node takes away one entry per leaf where there is one, and nothing else |
| Stack.InsertAfterShape | src/stack.c:63-85 | after stack_insert_after into a duplicate-free list the node occurs exactly once, immediately after the anchor; all other entries keep their relative order; the node is new only when it was absent |
| Stack.InsertBeforeShape | src/stack.c:96-118 | the same for stack_insert_before, the node landing immediately before the anchor |
| Stack.SpliceSorted | src/stack.c:63-118 | linking a node between entries of lower-or-equal and higher-or-equal level keeps the list sorted |
| Stack.FirstHigher | src/stack.c:207-210 | the scan of limit_above stops at the first entry whose level exceeds the node's, every earlier entry being at or below it |
| Stack.LastLower | src/stack.c:229-232 | the scan of limit_below stops at the last entry whose level is below the node's, every later entry being at or above it |
| Stack.StackingList.constructor | src/stack.c:46-52 | the stacking list starts empty |
| Stack.StackingList.RemoveStack | src/stack.c:126-146 | remove_stack: NULL changes nothing; otherwise exactly that entry is unlinked and the others keep their order |
| Stack.StackingList.FindAndRemove | src/stack.c:159-164 | the inner loop finds the first entry holding the leaf and unlinks it, or changes nothing when there is none |
| Stack.StackingList.RemoveStackNode | src/stack.c:155-166 | remove_stack_node leaves the list with one entry unlinked per leaf, as RemoveAllMultiset counts |
| Stack.StackingList.InsertAfter | src/stack.c:63-85 | stack_insert_after: a NULL anchor makes the list that single node; otherwise the list becomes InsertAfterSpec, whose shape InsertAfterShape states |
| Stack.StackingList.InsertBefore | src/stack.c:96-118 | stack_insert_before, the mirror image, with InsertBeforeShape |
| Stack.StackingList.LimitAbove | src/stack.c:205-218 | limit_above returns the first entry above the node's level, else the tail, stepping back one when that entry holds the node itself (None at the head) |
| Stack.StackingList.LimitBelow | src/stack.c:227-240 | limit_below returns the last entry below the node's level, else the head, stepping forward one when that entry holds the node itself (None at the tail) |
| Stack.StackStepKeeps | src/stack.c:250-271 | one placement in stack() keeps every client known, puts the leaf in the list, adds an entry only when the leaf was absent, and keeps a duplicate-free list sorted by level |
| Stack.StackEntriesForm | src/stack.c:254-271 | one placement either leaves a list that already holds the leaf alone or unlinks the leaf and links it again at one position |
| Stack.StackStepAgrees | src/stack.c:257-270 | when an anchor is found, window_below and the "below" line go out exactly when the leaf's level is lower, or equal and not focused, and the leaf then sits immediately before the anchor; otherwise window_above and "above", with the leaf immediately after it |
| Stack.StackingList.StackOne | src/stack.c:250-271 | one loop iteration makes the list, the window_below/window_above calls and the node_stack report of StackStep, and keeps every client known |
| Stack.StackLeavesSorted | src/stack.c:248-272 | stack() keeps a duplicate-free stacking list sorted by level from head to tail |
| Stack.StackLeavesContent | src/stack.c:248-272 | after stack() every placed leaf (a client, and floating only with auto_raise) is in the list, no entry is lost and only leaves are added |
| Stack.PreselFeedbackCalls | src/stack.c:293-304 | restack_presel_feedbacks_in raises exactly one feedback window per preselected node of the tree, each above the given node |
| Stack.TopTiled | src/stack.c:282-285 | the entry found from the tail is the top-most one holding a tiled client; every entry above it is not tiled |
| Stack.StackingList.RestackPreselFeedbacks | src/stack.c:280-289 | restack_presel_feedbacks raises the feedbacks above the top-most tiled entry, and makes no call when there is none |
| Stack.StackingList.Stack | src/stack.c:244-276 | stack() leaves the list of StackLeaves, makes its calls followed by the client-list update and the feedback restack, keeps a sorted duplicate-free list so, and holds every placed leaf afterwards |
| Subscribe.ReleaseOf | src/subscribe.c:96-102 | removing a subscriber releases its own stream: kept open across a restart exactly when restarting, otherwise closed with its own FIFO path unlinked |
| Subscribe.KeptMembers | src/subscribe.c:221-249 | the subscribers left by put_status are exactly those each visited subscriber's delivery keeps |
| Subscribe.KeptOrDropped | src/subscribe.c:221-249 | every visited subscriber is either kept or released by put_status, never both and never twice |
| Subscribe.SentMembers | src/subscribe.c:221-242 | put_status writes the payload to exactly the subscribers whose field has the mask, each to its own stream |
| Subscribe.NoSpentSubscriber | src/subscribe.c:224-246 | a subscriber whose budget reaches zero is removed, so no kept subscriber has a zero count |
| Subscribe.SurvivorsMembers | src/subscribe.c:258-269 | prune_dead_subscribers keeps exactly the subscribers whose probe write succeeds and releases each of the others once |
| Subscribe.DesktopChr | src/subscribe.c:159-162 | the desktop letter is one of ufoUFO: upper case exactly for the monitor's desktop, u exactly when urgent, f exactly when empty and not urgent |
| Subscribe.Flags | src/subscribe.c:177-191 | the :G flags hold S, P, L and M exactly for sticky, private, locked and marked, one letter each, at most four |
| Subscribe.ReportText | src/subscribe.c:145-204 | print_report starts with the status prefix and ends with a newline |
| Subscribe.ReportLayout | src/subscribe.c:149-202 | the report is the prefix, then its monitor, desktop, layout, state and flag fields separated by ':', then a newline |
| Subscribe.SplitJoin | src/subscribe.c:154-198 | a reader that splits the report body at ':' gets the fields back, as long as no name holds ':' |
| Subscribe.SubscriberList.constructor | src/subscribe.c:50-59 | the subscriber list starts empty |
| Subscribe.SubscriberList.Remove | src/subscribe.c:66-105 | remove_subscriber: NULL changes nothing; otherwise exactly that subscriber is unlinked, the others keep their order, and its stream is released once |
| Subscribe.SubscriberList.Add | src/subscribe.c:111-137 | add_subscriber appends the subscriber; a report subscriber is sent the report at once and is removed when its count was 1, otherwise kept with its count lowered by one |
| Subscribe.SubscriberList.Deliver | src/subscribe.c:222-248 | one visit of put_status: the subscriber is written to when it wants the mask, its count is spent, and it is removed when the write failed or its count reached zero |
| Subscribe.SubscriberList.PutStatus | src/subscribe.c:212-250 | put_status leaves the kept subscribers of Kept in order, makes the writes of Sent (the report for the report mask, the message otherwise) and the releases of Dropped |
| Subscribe.SubscriberList.Broadcast | src/subscribe.c:221-249 | the loop of put_status with the payload fixed: the kept subscribers are those of Kept in order, the writes those of Sent and the releases those of Dropped |
| Subscribe.Payload | src/subscribe.c:229-242 | put_status writes the report when the mask is exactly the report category and the message otherwise; a mask without the report category always gets the message |
| Subscribe.SubscriberList.PruneDead | src/subscribe.c:258-269 | prune_dead_subscribers leaves the survivors in order and releases the others, as SurvivorsMembers states |
| Parse.ParseBool | src/parse.c:22-32 | parse_bool accepts exactly true, on, false and off, and the value read is the one BOOL_STR or ON_OFF_STR prints for that word |
| Parse.ParseSplitType | src/parse.c:44-54 | parse_split_type accepts only the words SPLIT_TYPE_STR prints, each for its own value |
| Parse.ParseSplitModeAsWritten | src/parse.c:67-77 | parse_split_mode as written: MODE_MANUAL is read from "vertical" and from nothing else, MODE_AUTOMATIC from "automatic" |
| Parse.SplitModeAsWrittenRejectsManual | src/parse.c:67-77 | the word SPLIT_MODE_STR prints for MODE_MANUAL ("manual") is refused by parse_split_mode as written |
| Parse.ParseSplitMode | src/parse.c:67-77 | parse_split_mode as intended accepts only the words SPLIT_MODE_STR prints, each for its own value |
| Parse.ParseLayout | src/parse.c:90-100 | parse_layout accepts only the words LAYOUT_STR prints, each for its own value |
| Parse.ParseClientState | src/parse.c:114-130 | parse_client_state accepts only the words STATE_STR prints, each for its own value |
| Parse.ParseStackLayer | src/parse.c:144-157 | parse_stack_layer accepts only the words LAYER_STR prints, each for its own value |
| Parse.ParseDirection | src/parse.c:171-187 | parse_direction accepts only the words SPLIT_DIR_STR prints, each for its own value |
| Parse.ParseChildPolarity | src/parse.c:457-467 | parse_child_polarity accepts only the words CHILD_POL_STR prints, each for its own value |
| Parse.ParseAutomaticScheme | src/parse.c:481-494 | parse_automatic_scheme accepts only the words AUTO_SCM_STR prints, each for its own value |
| Parse.ParseTightness | src/parse.c:555-565 | parse_tightness accepts only the words TIGHTNESS_STR prints, each for its own value |
| Parse.PrintersReadBack | src/parse.c:22-565 | every keyword parser reads back each value from the word its printer in helpers.h writes |
| Parse.ParseCycleDirection | src/parse.c:200-210 | parse_cycle_direction accepts only next and prev, each for its own value |
| Parse.ParseCirculateDirection | src/parse.c:223-233 | parse_circulate_direction accepts only forward and backward, each for its own value |
| Parse.ParseHistoryDirection | src/parse.c:246-256 | parse_history_direction accepts only older and newer, each for its own value |
| Parse.ParseFlip | src/parse.c:270-280 | parse_flip accepts only horizontal and vertical, each for its own value |
| Parse.ParseResizeHandle | src/parse.c:299-327 | parse_resize_handle accepts only the eight handle words, each for its own value |
| Parse.ParseModifierMask | src/parse.c:346-374 | parse_modifier_mask accepts only the eight modifier words and gives one X modifier bit per word |
| Parse.ParseButtonIndex | src/parse.c:390-409 | parse_button_index accepts only any, button1 to button3 and none, giving 0 to 3 and -1 |
| Parse.ParsePointerAction | src/parse.c:425-444 | parse_pointer_action accepts only the four action words, each for its own value |
| Parse.WordsReadBack | src/parse.c:200-444 | each of those parsers reads every value back from its own word |
| Parse.NoTokensAllDelimiters | src/parse.c:521-531 | strtok finds no token only in text made of delimiters |
| Parse.TokensJoin | src/parse.c:521-531 | strtok gives back the pieces that were joined with the delimiter, when none is empty or holds it |
| Parse.ParseStateTransition | src/parse.c:510-542 | parse_state_transition computes TransitionsOf: "none" gives no bit, "all" both, and a comma list only of enter and exit the bits it names, refusing any other word or an empty list |
| Parse.TransitionsOfList | src/parse.c:518-541 | a comma list of enter and exit words selects exactly the words it contains |
| Parse.ParseDegree | src/parse.c:576-589 | parse_degree succeeds exactly when atoi's value is a multiple of 90, giving the angle in [0, 360) a whole number of turns away from it |
| Parse.Atoi | src/parse.c:578 | atoi's value is strtol's decimal value as a 32-bit int: the same when it fits, otherwise equal modulo 2^32 |
| Parse.ParseId | src/parse.c:600-610 | parse_id succeeds exactly when strtol consumed the whole argument without a range error, and gives its value modulo 2^32 |
| Parse.ParseIdReadsDecimal | src/parse.c:600-610 | an id printed in decimal reads back |
| Parse.ParseIdReadsHex | src/parse.c:600-610 | an id printed as 0x and eight hexadecimal digits reads back |
| Parse.ParseIdWraps | src/parse.c:600-610 | a negative id wraps to the unsigned value and the empty argument reads as 0 |
| Parse.ParseIdRejectsTrailing | src/parse.c:605-607 | a character after the number makes parse_id fail |
| Parse.ParseIdRangeError | src/parse.c:603-607 | a decimal number beyond LONG_MAX, such as 9223372036854775808, makes parse_id fail although strtol consumed all of it |
| Numeric.StrtolTooLarge | src/parse.c:603-604 | strtol reads a decimal number beyond LONG_MAX whole, gives LONG_MAX and reports a range error |
| Parse.ParseBoolDeclaration | src/parse.c:625-641 | parse_bool_declaration sets exactly when it read a value, its key is a non-empty token without '=', no key is only possible on text made of '=' (a toggle), and it fails only when a second token is present |
| Parse.BoolDeclarationSets | src/parse.c:625-641 | KEY=true and KEY=false set KEY to that value |
| Parse.BoolDeclarationToggles | src/parse.c:625-641 | a bare KEY toggles it |
| Parse.BoolDeclarationRefuses | src/parse.c:631-637 | a second token that is not a boolean word is refused |
| Parse.ParseIndex | src/parse.c:652-655 | parse_index succeeds exactly when the text is '^' followed by an optional sign and a decimal digit, and the index fits 16 bits |
| Parse.ParseIndexReads | src/parse.c:652-655 | an index printed after '^' reads back, whatever non-digit follows it |
| Parse.ParseRectangleReads | src/parse.c:668-680 | parse_rectangle reads back WxH+X+Y printed in decimal |
| Parse.ParseRectangleOf | src/parse.c:668-680 | when all four conversions succeed with a rectangle's numbers, parse_rectangle gives that rectangle |
| Parse.ParseRectangle | src/parse.c:668-680 | parse_rectangle succeeds exactly when sscanf makes all four conversions, and each field holds its value modulo 2^16 |
| Parse.EventOfWord | src/parse.c:723-793 | a word recognised as a single event is that event's own word |
| Parse.ParseSubscriberMask | src/parse.c:723-793 | a word parse_subscriber_mask accepts never gives an empty mask |
| Parse.EventWordsSubscribe | src/parse.c:723-793 | each event's own word subscribes to that event alone |
| Parse.SubscriberMaskWords | src/parse.c:723-793 | parse_subscriber_mask accepts exactly all, node, desktop, monitor and the events' own words |
| Parse.GroupMasks | src/parse.c:725-732 | node, desktop and monitor subscribe to exactly the events about that object, all to every event |
| Parse.ParseModifiers | src/parse.c:816-832 | the loop of the parse_*_modifiers functions computes Peel, stripping '.'-separated modifiers from the end |
| Parse.ParseMonitorModifiers | src/parse.c:816-832 | parse_monitor_modifiers is Peel over the monitor modifier names |
| Parse.ParseDesktopModifiers | src/parse.c:852-876 | parse_desktop_modifiers is Peel over the desktop modifier names |
| Parse.ParseNodeModifiers | src/parse.c:912-950 | parse_node_modifiers is Peel over the node modifier names |
| Parse.PeelFields | src/parse.c:816-950 | the modifier parsers succeed exactly when every field after the first is a modifier name, possibly negated; the description left is the first field and the selection is the settings applied |
| Parse.AppliedFirstMention | src/parse.c:816-950 | a modifier takes the value of its first mention in the description, and an unmentioned one keeps its entry |
| Jsmn.TypeCodesRead | src/jsmn.h:17-23 | the five token types have five distinct codes in 0..4, each read back as its type |
| Jsmn.PrimitiveEnd | src/jsmn.c:72-92 | the scan of a primitive stops at the first delimiter, non-printable character, NUL or the end of the text, every character before it being a printable non-delimiter |
| Jsmn.ScanString | src/jsmn.c:129-185 | a string that closes closes on a double quote inside the text |
| Jsmn.ScanUnicode | src/jsmn.c:163-176 | a \u escape takes up to four hexadecimal digits and makes the string invalid at any other character |
| Jsmn.ScanBadEscape | src/jsmn.c:157-181 | a backslash followed by anything but an allowed escape character makes the string invalid |
| Jsmn.LastOpen | src/jsmn.c:293-318 | the backward search for a container not yet closed finds the last token with a start and no end, or -1 when there is none |
| Jsmn.LastOpenContainer | src/jsmn.c:357-366 | the backward search of the ',' case finds the last open object or array, or -1 |
| Jsmn.PrimitiveExtent | src/jsmn.c:63-118 | a primitive that parses yields a token that starts at its first character and ends at the delimiter |
| Jsmn.StringExtent | src/jsmn.c:124-186 | a string that closes yields a token from after the opening quote to the closing quote |
| Jsmn.Parser.Init | src/jsmn.c:440-445 | jsmn_init puts pos and toknext at 0 and toksuper at -1 |
| Jsmn.Parser.AllocToken | src/jsmn.c:18-31 | jsmn_alloc_token hands out the next free token with start and end -1 and size 0, or -1 with nothing changed when the pool is used up |
| Jsmn.Parser.FillToken | src/jsmn.c:43-49 | jsmn_fill_token sets exactly that token's type, start and end and zeroes its size |
| Jsmn.Parser.ParsePrimitive | src/jsmn.c:63-118 | jsmn_parse_primitive: an invalid character is JSMN_ERROR_INVAL with pos unchanged; otherwise pos ends on the last character and a primitive token for the text is added, or JSMN_ERROR_NOMEM with nothing changed when the pool is full; without a pool nothing is written |
| Jsmn.Parser.SkipHexDigits | src/jsmn.c:166-176 | the digit loop of a \u escape stops where HexEnd says |
| Jsmn.Parser.StringStep | src/jsmn.c:129-181 | one step of the string loop moves forward without changing where the scan ends, or reports the invalid escape |
| Jsmn.Parser.ParseString | src/jsmn.c:124-186 | jsmn_parse_string: an invalid escape is JSMN_ERROR_INVAL and an unclosed string JSMN_ERROR_PART, both with pos on the opening quote; a closed string adds a token for its body and leaves pos on the closing quote, or is JSMN_ERROR_NOMEM when the pool is full |
| Jsmn.Parser.OpenBracket | src/jsmn.c:218-248 | an opening bracket adds an open container token at its position, counts it as a child of the super token and makes it the super token; JSMN_ERROR_NOMEM when the pool is full |
| Jsmn.Parser.CloseBracket | src/jsmn.c:249-322 | a closing bracket ends the last open token one past the bracket when it is a container of the same kind, the open token before it becoming the super token; anything else is JSMN_ERROR_INVAL with nothing changed |
| Jsmn.Parser.Comma | src/jsmn.c:345-370 | after a comma a super token that is not a container gives way to the last open object or array; otherwise the super token stays |
| Jsmn.Parser.CountChild | src/jsmn.c:238-239 | the super token, if any, gains one child and nothing else changes |
| Jsmn.RoundOf | src/jsmn.c:210-406 | one round of jsmn_parse's loop, pool aside, moves forward within the text and counts at most one value: an opening bracket, a closed string or a well-delimited primitive counts one, other punctuation and white space none, and a malformed string or primitive stops the count |
| Jsmn.ValueCount | src/jsmn.c:207-406 | the values counted from a position never outnumber the characters left, since each takes at least one |
| Jsmn.BetweenStep | src/jsmn.c:210-406 | one more round extends the count of the rounds run so far to where that round ends |
| Jsmn.BetweenCount | src/jsmn.c:207-428 | the count from the starting position is what the rounds run so far counted plus the count from where they stopped |
| Jsmn.ValueCountExample | src/jsmn.c:207-428 | the text {"a":1} holds three values: the object, the key and the primitive |
| Jsmn.Children | src/jsmn.c:238-239 | a token never has more children than tokens were added |
| Jsmn.ChildrenNone | src/jsmn.c:225-246 | no token added so far was counted under a token not yet allocated |
| Jsmn.SizesAdd | src/jsmn.c:238-246 | adding a token of size zero under the super token keeps every size equal to its earlier size plus the number of tokens counted under it, whether the super token is bumped before the new token is written or after |
| Jsmn.SizesEnd | src/jsmn.c:304 | setting where a token ends changes no size |
| Jsmn.Parser.OpenCase | src/jsmn.c:218-247 | the opening-bracket case succeeds with nothing changed without a pool, is JSMN_ERROR_NOMEM with nothing changed on a full pool, and otherwise bumps the super token's size, adds an open container of the bracket's kind at pos and makes it the super token |
| Jsmn.Parser.CloseCase | src/jsmn.c:249-321 | the closing-bracket case does nothing without a pool; with one, the last open token must be a container of the bracket's kind: it ends one past the bracket and the last open token before it becomes the super token; otherwise JSMN_ERROR_INVAL with nothing changed |
| Jsmn.Parser.StringCase | src/jsmn.c:323-334 | the quote case: an invalid or unclosed string is its error with nothing changed; a closed string leaves pos on its closing quote and, with a pool, adds a string token for its body and bumps the super token's size, or is JSMN_ERROR_NOMEM with nothing changed |
| Jsmn.Parser.PrimitiveCase | src/jsmn.c:390-405 | the primitive case: a primitive not ended by a delimiter is JSMN_ERROR_INVAL with nothing changed; otherwise pos ends on its last character and, with a pool, a primitive token for it is added and the super token's size bumped, or JSMN_ERROR_NOMEM with nothing changed |
| Jsmn.Parser.OpenRound | src/jsmn.c:218-247 | the opening-bracket case keeps the pool invariant and the sizes, counts one value, and fails only with JSMN_ERROR_NOMEM on a full pool; with a pool its error code, new fields and new pool are exactly what Step gives for the old state, and the super token it counted the new container under (the old toksuper) is appended to parents exactly when it succeeds; without a pool toksuper stays |
| Jsmn.Parser.CloseRound | src/jsmn.c:249-321 | the closing-bracket case keeps the pool invariant and the sizes, counts nothing, adds no token and no parent, and fails only with JSMN_ERROR_INVAL and only with a pool; with a pool its result and new state are exactly what Step gives (the super token becoming the last token still open); without a pool toksuper stays |
| Jsmn.Parser.StringRound | src/jsmn.c:323-334 | the quote case keeps the pool invariant and the sizes, counts one value and moves past the closing quote; with a pool its result and new state are exactly what Step gives and the old toksuper is appended to parents exactly when it succeeds; without a pool it fails only on a malformed string and toksuper stays |
| Jsmn.Parser.PrimitiveRound | src/jsmn.c:390-405 | the primitive case keeps the pool invariant and the sizes, counts one value and moves to the delimiter; with a pool its result and new state are exactly what Step gives and the old toksuper is appended to parents exactly when it succeeds; without a pool it fails only on a malformed primitive and toksuper stays |
| Jsmn.Parser.Round | src/jsmn.c:210-406 | one round of the loop keeps the pool invariant and the sizes; on success it advances as RoundOf says and adds what the round counts to toknext when there is a pool; with a pool its result, pos, toknext, toksuper and pool are exactly what Step gives for the character at pos (so ':' makes token toknext - 1 the super token and ',' gives CommaSuper), and parents gains the old toksuper exactly when a token was added; without a pool toksuper changes only at ':', to toknext - 1; JSMN_ERROR_NOMEM comes only from a full pool, and without a pool an error only from a malformed string or primitive |
| Jsmn.Step | src/jsmn.c:210-406 | one round of the loop with a pool, at the character at pos: its result is 0 or one of the three errors; an error leaves pos, toknext, toksuper and the pool as they were, and JSMN_ERROR_NOMEM comes only from a full pool; a success keeps the pool's length and the super token -1 or allocated, does not move pos back and adds at most one token |
| Jsmn.StepOpen | src/jsmn.c:218-247 | an opening bracket is JSMN_ERROR_NOMEM with nothing changed on a full pool, and otherwise adds exactly one token without moving pos, keeping the super token allocated |
| Jsmn.StepClose | src/jsmn.c:249-321 | a closing bracket is JSMN_ERROR_INVAL with nothing changed, or succeeds adding no token and leaving pos, with a super token that was allocated |
| Jsmn.CommaSuper | src/jsmn.c:345-370 | after a comma the super token is -1 or an allocated token |
| Jsmn.StepString | src/jsmn.c:323-334 | a string is one of the errors with nothing changed (JSMN_ERROR_NOMEM only on a full pool), or adds exactly one token and moves pos past the opening quote |
| Jsmn.StepPrimitive | src/jsmn.c:390-405 | a primitive is JSMN_ERROR_INVAL or JSMN_ERROR_NOMEM with nothing changed (the latter only on a full pool), or adds exactly one token without moving pos back |
| Jsmn.NewParents | src/jsmn.c:238-239 | a round records at most one super token, the one in force when it began |
| Jsmn.TraceStep | src/jsmn.c:210-406 | one more round at the state the loop reached: an error leaves that state, and a success extends the trace to the position after the round, appending the super token of the token it added |
| Jsmn.TraceRound | src/jsmn.c:210-406 | the same step for a round whose parents were already extended: after an error the trace stays at the same state and parents |
| Jsmn.StepRound | src/jsmn.c:210-406 | with a pool, a successful round ends where RoundOf says the next one starts and adds one token for each value RoundOf counts |
| Jsmn.TraceCounts | src/jsmn.c:207-406 | the rounds the loop runs add one token and record one super token for each value Between counts, so with a pool toknext grows by the number of values |
| Jsmn.ExampleKey | src/jsmn.c:218-334 | on {"a":1}, the rounds up to ':' add the object under no token and the key under the object |
| Jsmn.ExampleValue | src/jsmn.c:340-405 | on {"a":1}, ':' makes the key the super token and the value is added under it |
| Jsmn.TraceExample | src/jsmn.c:207-428 | on {"a":1} with three tokens, the rounds leave the object (size 1, closed one past '}'), the key (size 1) and the value (size 0), with parents -1, 0, 1 and no super token |
| Jsmn.Parser.TracedRound | src/jsmn.c:210-406 | Round followed along the trace: after a success the trace reaches the position after the round with the new fields, pool and parents; an error is the one Step gives there and leaves the trace where it was |
| Jsmn.Parser.ScanStep | src/jsmn.c:210-406 | one pass of the loop, the round and then pos++: the count of the rounds so far and the trace both reach the new pos, and an error is the one Step gives at pos |
| Jsmn.Parser.AllClosed | src/jsmn.c:417-426 | the final backward scan finds no allocated token open exactly when none is |
| Jsmn.Parser.Scan | src/jsmn.c:207-415 | the loop stops at the end of the text (or a NUL) having counted ValueCount of the text from the start, or at the first error; toknext, with a pool, equals the count; the pool invariant and the sizes hold throughout; with a pool the fields, the pool and parents are what Trace gives from the initial state to the final pos, and an error is the one Step gives at that pos |
| Jsmn.Parser.Parse | src/jsmn.c:201-429 | jsmn_parse returns an error code or the initial toknext plus the number of values in the text, with or without a pool; a malformed string or primitive is always an error, and without a pool the only one; with a pool the count is the new toknext, no container is left open, every token covers its text, earlier tokens keep their type and start, the pool past toknext is untouched, pos, toknext, toksuper, the pool and parents are exactly where Trace (the rounds of Step) takes the initial state, so every token's size is its earlier size plus the number of tokens counted under it by those rounds; stopping inside the text means the round there failed with r, and at the end of the text r is an error exactly when a container is still open |
| Bspc.SocketPath | src/bspc.c:70-87 | the socket path is $BSPWM_SOCKET when set, else the template filled from the display; it always fits sun_path (cut to a prefix when longer), and there is none when neither is available |
| Bspc.FrameAppend | src/bspc.c:111-116 | the request for a split argument list is the two requests one after the other |
| Bspc.UnframeFrame | src/bspc.c:110-116 | the daemon reading the NUL-separated request gets back exactly the arguments bspc was given |
| Bspc.FrameInjective | src/bspc.c:110-116 | different argument lists never make the same request |
| Bspc.FrameEndsWithNul | src/bspc.c:114 | a request with arguments ends with the NUL written after its last argument |
| Bspc.Frame | src/bspc.c:110-116 | the request for the arguments is at least one byte per argument, its NUL |
| Bspc.Snprintf | src/bspc.c:114 | snprintf writes the first rem - 1 characters of its text (all of it when it fits) and a NUL, touches nothing outside its window, and returns the untruncated length |
| Bspc.PutArg | src/bspc.c:114 | one round of the framing loop appends the argument and its NUL when they fit, and otherwise leaves the buffer holding the request cut one byte short and NUL-terminated |
| Bspc.FrameAsWritten | src/bspc.c:107-116 | the framing loop as written: msg_len is the sum of the full snprintf lengths while room remains, and when the request fits the buffer holds exactly the request |
| Bspc.FrameOverrun | src/bspc.c:111-119 | as written, one argument as long as the buffer makes msg_len one more than the buffer, so send reads past msg |
| Bspc.FrameRequest | src/bspc.c:107-119 | the framing loop with msg_len capped at the bytes written: a request that fits is sent whole, a longer one is cut to the buffer, one byte short and NUL-terminated |
| Bspc.TruncatedRequest | src/bspc.c:111-116 | once the loop stops early, the buffer is the whole request cut one byte short and NUL-terminated |
| Bspc.Received | src/bspc.c:135-154 | the answer loop handles only non-empty chunks |
| Bspc.FailedIffErrorChunk | src/bspc.c:139-140 | the exit status fails exactly when some chunk of the answer began with the failure byte |
| Bspc.FailureSticky | src/bspc.c:139-146 | a failure status is never reset by a later chunk |
| Bspc.OutputsAppend | src/bspc.c:139-146 | standard output and standard error of a longer answer extend those of its start, in order |
| Bspc.ReceivedStops | src/bspc.c:137-153 | nothing after an empty read or a hang-up is handled |
| Bspc.Contributed | src/bspc.c:136-150 | one wake-up contributes at most one chunk, its data, exactly when that data is non-empty |
| Bspc.Wake | src/bspc.c:136-153 | one wake-up sends a chunk to stdout up to its first NUL, or after the failure byte to stderr with a failing status; the loop stops exactly on an empty read or a hang-up |
| Bspc.Respond | src/bspc.c:123-157 | the poll loop's standard output, standard error and status are those of the chunks received before it stopped |
| Bspc.Run | src/bspc.c:52-158 | bspc fails with a message without arguments; --print-socket-path prints the path and succeeds; a request is sent exactly when socket and connect succeed, it is the framed arguments (read back as them) when they fit and never longer than the buffer; after a send the output and status are those of the answer, and a failed send fails. The request is framed by Bspc.FrameRequest, the corrected framing of the Findings table, not the as-written msg_len |
| Daemon.HexField | src/bspwm.c:669 | one %02x conversion reads one or two hexadecimal digits and gives their value below 256, and fails exactly when no hexadecimal digit comes first |
| Daemon.ValueBound | src/bspwm.c:669 | n hexadecimal digits are worth less than 16^n, so a two-digit field fits a channel |
| Daemon.ColorFields | src/bspwm.c:669 | the three channels sscanf reads each lie below 256 |
| Daemon.Pixel | src/bspwm.c:674 | the pixel is opaque (top byte 0xFF) and its red, green and blue bytes read back as the channels |
| Daemon.ColorPixel | src/bspwm.c:666-678 | get_color_pixel gives the screen's black pixel when sscanf does not read three fields (always for a colour shorter than four characters) and an opaque pixel otherwise |
| Daemon.HexColorPixel | src/bspwm.c:666-678 | a colour that is_hex_color accepts decodes to the pixel of its three digit pairs |
| Daemon.SingleDigitField | src/bspwm.c:669 | a field may be a single digit: "#abcde" reads blue as 0xe rather than failing |
| Daemon.LastArg | src/bspwm.c:120-145 | an option's buffer holds an argument exactly when that option was given |
| Daemon.LastArgIsLast | src/bspwm.c:120-145 | the argument kept for an option is that of an occurrence no later occurrence overrides |
| Daemon.ToInt32 | src/bspwm.c:139 | storing strtol's long in the int sock_fd keeps the value modulo 2^32, and keeps it unchanged when it fits |
| Daemon.SocketOption | src/bspwm.c:137-143 | -o leaves sock_fd at -1 whenever strtol leaves characters unread |
| Daemon.SocketOptionReadsBack | src/bspwm.c:137-143 | a descriptor printed with %i reads back through -o |
| Daemon.SocketOptionRejects | src/bspwm.c:140-142 | a character after the number leaves sock_fd at -1 |
| Daemon.SocketOptionNeedsDigits | src/bspwm.c:140-142 | an argument without a number leaves sock_fd at -1 |
| Daemon.PathBuffer | src/bspwm.c:130-136 | a -c or -s argument is copied cut to MAXLEN - 1 characters, and the buffer stays empty when the option is absent |
| Daemon.Settings | src/bspwm.c:120-145 | run_level has bit 0 exactly when -s was given, bit 1 exactly when -o was, and no other bit |
| Daemon.SettingsStep | src/bspwm.c:130-143 | each of -c, -s and -o changes only its own buffer and bit |
| Daemon.ReadOptions | src/bspwm.c:119-145 | the option loop exits exactly when some option is -h or -v, printing for the first of them; otherwise it leaves the settings of all the options |
| Daemon.ApplyOption | src/bspwm.c:121-144 | one pass of the switch for -c, -s or -o moves the settings on by that option |
| Daemon.ConfigPath | src/bspwm.c:147-159 | a -c path is kept as given; otherwise the default path, cut to the buffer, is used, and the result always fits the buffer |
| Daemon.ConfigPathPrecedence | src/bspwm.c:152-158 | a -c path overrides the environment, and CONFIG_HOME_ENV overrides HOME |
| Daemon.ConfigPathInHome | src/bspwm.c:154-155 | a default path that fits starts with the configuration directory and ends with the configuration file name |
| Daemon.KeptArgs | src/bspwm.c:351-356 | rargc is the index of the first "-s" argument, or argc when there is none |
| Daemon.FindStateFlag | src/bspwm.c:351-356 | the loop over argv finds rargc |
| Daemon.BuildRestartArgv | src/bspwm.c:351-372 | the restart vector has rargc + 5 slots, ends with NULL and holds the arguments before the first "-s" followed by -s, the state path, -o and the socket descriptor |
| Daemon.RestartArgvStable | src/bspwm.c:351-372 | restarting a restarted daemon gives the vector a single restart would: earlier -s and -o arguments are not repeated |
| Daemon.RestartHandsOver | src/bspwm.c:366-371 | the successor reads the state path and the socket descriptor back from the last four arguments |
| Daemon.WaitingMembers | src/bspwm.c:260-272 | the rules a pass keeps pending are exactly those whose descriptor is not ready |
| Daemon.WaitingSplits | src/bspwm.c:260-272 | every pending rule is either kept or resolved by a pass, exactly once |
| Daemon.WaitingCount | src/bspwm.c:260-272 | a pass keeps and resolves as many rules between them as were pending |
| Daemon.ReplaysOnlyAccepted | src/bspwm.c:263-268 | rules that are not ready, or that manage_window rejects, replay nothing |
| Daemon.ReplaysContain | src/bspwm.c:263-268 | every queued event of every ready rule that manage_window accepts is replayed, in queue order |
| Daemon.Daemon.constructor | src/bspwm.c:104-117 | the daemon starts with no monitors, rules, pending rules or history and an empty log |
| Daemon.Daemon.RemovePendingRule | src/bspwm.c:269 | remove_pending_rule unlinks exactly that rule, the others keeping their order |
| Daemon.Daemon.ReplayQueue | src/bspwm.c:265-267 | every queued event is handed to handle_event, in order |
| Daemon.Daemon.ResolveOne | src/bspwm.c:262-271 | one rule: a ready one is replayed when manage_window accepts it and removed either way; one not ready stays |
| Daemon.Daemon.ResolvePending | src/bspwm.c:259-272 | the pending rules become the Waiting ones and the log gains the Replays of the accepted ready ones |
| Daemon.Daemon.ServeClient | src/bspwm.c:275-287 | the accepted client's message is handled, a client whose stream cannot be opened is warned about, and a failed accept or empty read adds nothing |
| Daemon.Daemon.DispatchEvents | src/bspwm.c:290-296 | every event the display connection has queued goes to handle_event, in order |
| Daemon.Daemon.Pass | src/bspwm.c:257-298 | the body of the main loop run when select() succeeds (check_connection and prune_dead_subscribers, src/bspwm.c:301-306, follow every iteration; Subscribe.SubscriberList.PruneDead models the prune): nothing happens when nothing is ready; otherwise pending rules are resolved first, then the socket is served, then display events are dispatched, each only when its descriptor is ready |
| Daemon.Daemon.Cleanup | src/bspwm.c:572-590 | cleanup empties the monitors, rules, subscribers, pending rules and history and clears the focused monitor, releasing every subscriber's stream once, in list order; nothing is added to the log of what the daemon hands on |

## Left out

- make_stack and make_subscriber are the constructors of the entry and subscriber values; allocation and its failure are not modelled.
- Helpers.CopyString and Helpers.TokenizeState.Next always return a buffer: the NULL that copy_string (src/helpers.c:147-150) and tokenize_with_escape (src/helpers.c:302-304) return when calloc fails is not modelled.
- The tree walkers first_extrema and next_leaf are not part of this model: stack() and remove_stack_node take the leaves of the subtree as a sequence in walk order.
- window_above, window_below and ewmh_update_client_list are recorded as calls, and the node_stack lines as strings; the display server's reaction is not modelled.
- Stream and FIFO effects of subscribe.c (fprintf, fflush, fclose, unlink, fcntl, the zero-length probe) are not modelled: each write's success is a boolean input, and a released stream is recorded with whether it is kept across a restart.
- print_report's return value (the fflush result) is the write-success input of put_status.
- The definitions in types.h, parse.h, subscribe.h and bspwm.h are not part of this model. The enumerations are datatypes without integer values. Subscriber masks are sets of events. CAT_CHR is '.' and EQL_TOK is "=".
- The Direction switches of boundary_distance and on_dir_side have a default branch returning UINT32_MAX or false; with a closed Direction datatype it cannot be reached.
- The C library is modelled in a small subset: atoi, strtol, strtoul and sscanf take an optional sign and digits (hexadecimal after "0x", octal after '0', for base 0). Leading white space is not skipped.
- Parse.Scanf: a partial sscanf match is None, since every caller compares the count with the full number of conversions.
- Daemon.HexField: the %02x conversion reads one or two hexadecimal digits only; the white space, sign and "0x" prefix sscanf would also accept are not modelled.
- Daemon.ColorPixel: requires a non-empty colour, since get_color_pixel reads from the second character on and the empty string has none.
- Jsmn.Parser.Parse: requires the tokens left by earlier calls on the same pool to cover their text, which is what an earlier call guarantees; a caller-modified pool is not covered.
- The JSMN_STRICT and JSMN_PARENT_LINKS builds of jsmn.c are not modelled; the default build's `#else` branches are.
- getopt's own parsing of argv is not modelled: the options it returns, with their arguments, are the input of the option loop.
- The rest of bspwm's main (select, accept, recv, fdopen, X connection setup, signal handling, fcntl and execvp on restart) is operating-system plumbing. One pass takes the ready descriptors and what accept/recv/fdopen gave as inputs.
- Daemon.Daemon.Cleanup: the side effects of remove_monitor, remove_rule and empty_history on the objects they free are not modelled; cleanup empties those lists.
- With HOME unset, glibc prints "(null)" into the default configuration path; the model uses that text, which is C library behaviour rather than the daemon's.
- Queued events for a pending rule are replayed only when manage_window returns true (src/bspwm.c:264); the rule is removed either way.
- Bspc.SocketPath: when neither $BSPWM_SOCKET nor a display name is available the C buffer is left uninitialised; the model gives None and prints an empty path.
- The size of a recv() chunk (BUFSIZ - 1) is not modelled: each poll wake-up delivers one chunk as an input.
- The steps of several loops are separate methods (Helpers.ScanInto, Helpers.Append, Stack.StackingList.StackOne, Subscribe.SubscriberList.Deliver, Subscribe.SubscriberList.Broadcast and Subscribe.SubscriberList.Visit, Jsmn.Parser.OpenCase, Jsmn.Parser.Round and their siblings, Jsmn.Parser.TracedRound, Jsmn.Parser.ScanStep, Jsmn.Parser.Scan, Jsmn.Parser.AllClosed, Bspc.Wake, Daemon.ApplyOption, Daemon.FindStateFlag, Daemon.Daemon.ResolveOne, Daemon.Daemon.ServeClient, Daemon.Daemon.DispatchEvents); together they do what the single C function does.
- Geometry.Area: in area (src/geometry.c:68) the 16-bit width and height are promoted to int, so a product of 2^31 or more is signed overflow in C; the model gives the exact product, which is the unsigned 32-bit value the usual two's-complement wrap produces.

## Findings

| source | as written | input that shows it | evidently intended | confidence | as-written member | corrected member |
|---|---|---|---|---|---|---|
| src/geometry.c:221-236 | rect_cmp returns the unsigned difference area(r2) - area(r1) converted to int | r1 = 1x1 and r2 = 65535x65535 at the same origin: the difference 0xFFFE0000 becomes negative, so the smaller rectangle sorts first | the sign of the area difference, so a larger overlapping rectangle sorts first | not executed | Geometry.RectCmpAsWritten, Geometry.RectCmpSignFlip | Geometry.RectCmp, Geometry.RectCmpProperties |
| src/parse.c:67-77 | parse_split_mode maps "vertical" to MODE_MANUAL | "manual", the word SPLIT_MODE_STR prints for MODE_MANUAL, is refused | "manual" reads back as MODE_MANUAL, like every other printer/parser pair | not executed | Parse.ParseSplitModeAsWritten, Parse.SplitModeAsWrittenRejectsManual | Parse.ParseSplitMode, Parse.PrintersReadBack |
| src/bspc.c:111-119 | msg_len adds snprintf's untruncated length, then send() is given msg_len bytes | one argument as long as the BUFSIZ buffer: msg_len is BUFSIZ + 1 and send reads past msg | msg_len counts only the bytes written into msg | not executed | Bspc.FrameAsWritten, Bspc.FrameOverrun | Bspc.FrameRequest |
