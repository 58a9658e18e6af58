# DevConnector route handlers, modelled in Dafny

DevConnector is a small developer social network: an Express/MongoDB REST API and a
React/Redux client. This project models the in-memory step of the API handlers that
edit a fetched document, together with the client's alert reducer:

- **Posts** (`posts.dfy`): like and unlike a post, add a comment, delete a comment, and
  the ownership check in front of deleting a post. A `Post` class holds the owner and the
  `likes` and `comments` arrays. The handlers are methods with `modifies post`. Each one
  is proved against a pure function of the old arrays (`LikeResult`, `UnlikeResult`,
  `CommentResult`, `DeleteCommentResult`). The lemmas about those functions state what
  the routes promise.
- **Profiles** (`profile.dfy`): add and remove experience and education entries on a
  `Profile` class. There is also the step-by-step build of `profileFields` and its `social`
  object for POST /profile, with the skills parser `split(',').map(trim)`.
- **Alert reducer** (`alert.dfy`): the pure Redux reducer over the list of alerts.
- Shared pieces: `http.dfy` holds the error replies, the `Outcome`/`Result` types and the
  required-field validation. `sequences.dfy` holds JavaScript `indexOf` and
  `splice(start, 1)`, including a negative start. `strings.dfy` holds `split` on one
  character and `trim` with JavaScript's whitespace set. `option.dfy` holds `Option`.

The database is an input. A handler receives the document the lookup returned, as a
nullable reference where `null` means no document. It also receives the acting user id
from the token and, for inserts, the id the database mints for the new sub-document. An
absent text field of the body is the empty string, because the routes treat a field as
present when it is truthy. Dereferencing a `null` document throws inside the route's `try`, and the
catch block answers 500. The model returns that as `ServerError` with the route's text:
"Server Error" in the post routes and "Server error" in the profile routes. DELETE
/posts/:id checks for a null post itself and answers 404 "Post not found".

Two behaviours follow the code rather than its comments:

- POST /profile copies a truthy `instagram` by reading the misspelt variable
  `instragram` (routes/api/profile.js:106). That line sits before the `try` that starts at
  line 109, so the ReferenceError is not caught by the catch at lines 126-128 and no 400
  is sent. The model reports it as `Unhandled("ReferenceError: instragram is not defined")`.
- The comment at routes/api/profile.js:252-253 says that `splice(-1, 1)` would erase the
  first entry. In JavaScript it removes the last one. The guard is still needed, and
  `Sequences.UnguardedSpliceDropsLast` proves what happens without it.

## Model

| member | source | states |
|---|---|---|
| Sequences.IndexOf | routes/api/posts.js:149-151 | `indexOf` gives -1 exactly when the value is absent; otherwise it gives the first position holding the value |
| Sequences.FindIndex | routes/api/profile.js:247-249 | the front-to-back scan returns exactly `IndexOf` |
| Sequences.SpliceOneAt | routes/api/posts.js:154 | `splice(i, 1)` at a valid index removes exactly element i; the elements before and after it keep their order; the length drops by one |
| Sequences.SpliceMinusOne | routes/api/profile.js:251-254 | `splice(-1, 1)` on a non-empty array removes the last element |
| Sequences.RemoveFirstMiss | routes/api/profile.js:247-256 | the guarded lookup-then-splice with an absent key leaves the array unchanged |
| Sequences.RemoveFirstHit | routes/api/profile.js:247-255 | the guarded lookup-then-splice with a present key removes exactly the element at the key's first position; the rest keep their order |
| Sequences.UnguardedSpliceDropsLast | routes/api/profile.js:251-255 | without the `!== -1` guard, an absent key drops the last entry, which differs from the guarded result |
| Sequences.DistinctSpliceOne | routes/api/profile.js:254 | removing one element keeps the values distinct |
| Http.Required | routes/api/profile.js:199-207 | the validator's error list is empty exactly when every required field is non-empty; it holds at most one message per check |
| Http.RequiredConcat | routes/api/profile.js:271-281 | each check contributes its own message, and the messages come in the order the checks are listed |
| Strings.Split | routes/api/profile.js:81 | `split(sep)` gives one piece more than there are separators, and no piece contains the separator |
| Strings.JoinSplit | routes/api/profile.js:81 | joining the pieces with the separator gives back the original string |
| Strings.SplitUnique | routes/api/profile.js:81 | any separator-free pieces that join back to s are exactly `Split(s, sep)` |
| Strings.TrimSpec | routes/api/profile.js:81 | `trim` keeps a slice of s; only whitespace lies before it and after it; the slice neither starts nor ends with whitespace |
| Strings.TrimOmits | routes/api/profile.js:81 | trimming adds no character |
| Strings.TrimBare | routes/api/profile.js:81 | a string without whitespace at either end is its own trim |
| Strings.TrimDropsLeading | routes/api/profile.js:81 | a leading whitespace character does not change the trim |
| Strings.TrimIdempotent | routes/api/profile.js:81 | trimming twice is trimming once |
| Posts.Authorize | routes/api/posts.js:216-222 | the ownership check passes exactly when the acting id equals the owner id; otherwise it answers 401 |
| Posts.DeletePost | routes/api/posts.js:83-107 | deleting a post is allowed exactly when the post exists and the acting id equals `post.user`; a missing post is 404 "Post not found"; someone else's post is 401 "No authorization to remove this post" |
| Posts.LikePost | routes/api/posts.js:112-130 | the handler's new `likes` and its outcome are `LikeResult` of the old likes; a refused like changes nothing; comments are untouched; a null post is 500 |
| Posts.LikesByEmpty | routes/api/posts.js:117-120 | the filter on the acting user is empty exactly when no like carries that user |
| Posts.LikeWhenNotLiked | routes/api/posts.js:117-123 | a like from a user not among the likers is accepted; the result is one longer, with the user's like first and the old likes after it |
| Posts.LikeWhenLiked | routes/api/posts.js:117-122 | a like from a user already among the likers is 400 "Post already liked" |
| Posts.LikeKeepsUnique | routes/api/posts.js:117-123 | if each user has at most one like before an accepted like, the same holds after it |
| Posts.LikeTwiceRefused | routes/api/posts.js:117-123 | a second like in a row by the same user is refused |
| Posts.UnlikePost | routes/api/posts.js:135-161 | the handler's new `likes` and its outcome are `UnlikeResult` of the old likes; a refused unlike changes nothing; comments are untouched; a null post is 500 |
| Posts.UnlikeWhenNotLiked | routes/api/posts.js:140-145 | an unlike from a user with no like is 400 "Post has not yet been liked" |
| Posts.UnlikeRemovesFirst | routes/api/posts.js:149-154 | an unlike from a liker removes exactly that user's first like; the length drops by one; the rest keep their order |
| Posts.UnlikeKeepsUnique | routes/api/posts.js:149-154 | unliking keeps at most one like per user |
| Posts.UnlikeTwiceRefused | routes/api/posts.js:140-154 | with one like per user, a second unlike in a row is refused |
| Posts.LikeThenUnlike | routes/api/posts.js:123-154 | from a state where the user had not liked the post, a like followed by an unlike restores the likes exactly |
| Posts.LikeUnlikeLike | routes/api/posts.js:117-154 | after a like the user has exactly one like; like, unlike and like again gives the same result as one like |
| Posts.AddComment | routes/api/posts.js:166-196 | empty text is the validator's 400 before anything is read; the handler's new `comments` and its outcome are `CommentResult`; a missing user or post is 500; likes are untouched |
| Posts.CommentPrepends | routes/api/posts.js:181-188 | an accepted comment `{text, name, avatar, user}` goes first and the old comments follow in order; empty text gives 400 "Text is required" |
| Posts.DeleteComment | routes/api/posts.js:201-242 | the handler's new `comments` and its outcome are `DeleteCommentResult`; nothing changes on failure; a null post is 500 |
| Posts.DeleteCommentMissing | routes/api/posts.js:208-213 | no comment with the requested id gives 404 "Post not found" |
| Posts.DeleteCommentForbidden | routes/api/posts.js:215-222 | a requested comment by someone else gives 401 "No authorization to remove this comment" |
| Posts.DeleteCommentRemovesFirstOwn | routes/api/posts.js:224-231 | otherwise exactly one comment goes: the acting user's first comment, at or before the requested one; the rest keep their order |
| Posts.DeleteCommentRemovesOther | routes/api/posts.js:226-231 | a user with comments c1 and c2 who asks to delete c2 loses c1, and c2 stays |
| Posts.DeleteCommentById | routes/api/posts.js:201-242 | the corrected handler's new `comments` and its outcome are `DeleteCommentByIdResult` |
| Posts.DeleteCommentByIdRemovesRequested | routes/api/posts.js:208-231 | the corrected deletion fails in the same cases and with the same errors as the code as written; when it succeeds it removes the requested comment itself and nothing else |
| Posts.DeleteCommentByIdRefused | routes/api/posts.js:208-222 | when the requested id is missing or the comment is someone else's, the corrected deletion fails with the same error as the deletion as written |
| Posts.DeleteCommentByIdAccepted | routes/api/posts.js:208-231 | when the requested comment is the acting user's, both deletions succeed and the corrected one removes exactly the requested comment |
| Posts.CommentIdsSplice | routes/api/posts.js:231 | removing one comment keeps distinct comment ids distinct |
| Posts.CommentIdsStayDistinct | routes/api/posts.js:188-231 | with a fresh id, an accepted comment and an accepted deletion (as written or corrected) keep the comment ids distinct |
| Profiles.AddExperience | routes/api/profile.js:195-239 | validation runs first and gives the 400 list; the handler's new `experience` and its outcome are `AddExperienceResult`; a null profile is 500; education is untouched |
| Profiles.RemoveExperience | routes/api/profile.js:244-262 | the handler's new `experience` is `RemoveExperienceResult` of the old one; a null profile is 500; education is untouched |
| Profiles.AddExperienceValidates | routes/api/profile.js:199-207 | creation is refused exactly when title, company or from is empty, with the validator's message list |
| Profiles.AddExperiencePrepends | routes/api/profile.js:219-232 | an accepted experience goes first; the earlier entries follow unchanged and in order |
| Profiles.RemoveExperienceMissing | routes/api/profile.js:247-256 | removing an id that is not present leaves `experience` identical |
| Profiles.RemoveExperiencePresent | routes/api/profile.js:247-254 | removing a present id removes exactly the first entry with that id; the length drops by one and the order is kept |
| Profiles.ExperienceIdsStayDistinct | routes/api/profile.js:231-254 | with a fresh id, adding and removing keep the entry ids distinct |
| Profiles.ExperienceScenario | routes/api/profile.js:219-256 | two additions come newest first; removing the older one leaves the newer; removing an unknown id then changes nothing |
| Profiles.AddEducation | routes/api/profile.js:267-313 | validation runs first and gives the 400 list; the handler's new `education` and its outcome are `AddEducationResult`; a null profile is 500; experience is untouched |
| Profiles.RemoveEducation | routes/api/profile.js:318-336 | the handler's new `education` is `RemoveEducationResult` of the old one; a null profile is 500; experience is untouched |
| Profiles.AddEducationValidates | routes/api/profile.js:271-281 | creation is refused exactly when school, degree, fieldofstudy, from or to is empty, with the validator's message list |
| Profiles.AddEducationPrepends | routes/api/profile.js:293-306 | an accepted education goes first; the earlier entries follow unchanged and in order |
| Profiles.RemoveEducationMissing | routes/api/profile.js:321-330 | removing an id that is not present leaves `education` identical |
| Profiles.RemoveEducationPresent | routes/api/profile.js:321-329 | removing a present id removes exactly the first entry with that id; the length drops by one and the order is kept |
| Profiles.EducationIdsStayDistinct | routes/api/profile.js:305-328 | with a fresh id, adding and removing keep the entry ids distinct |
| Profiles.TrimAll | routes/api/profile.js:81 | the map keeps the number of pieces and trims each one |
| Profiles.ParseSkillsPieces | routes/api/profile.js:80-81 | skills give one entry more than there are commas; each entry is its comma-separated segment, trimmed; no entry holds a comma or starts or ends with whitespace |
| Profiles.SplitExample | routes/api/profile.js:81 | "js, go" splits into "js" and " go" |
| Profiles.TrimExample | routes/api/profile.js:81 | "js" trims to itself and " go" trims to "go" |
| Profiles.ParseSkillsExample | routes/api/profile.js:81 | "js, go" parses to ["js", "go"] |
| Profiles.CopyIfTruthy | routes/api/profile.js:68-70 | a field is set exactly when its input is truthy, and then to that input |
| Profiles.CopyFields | routes/api/profile.js:64-89 | `user` is the acting id; every plain field is set exactly when its input is truthy; skills is set to the parsed list exactly when the input is truthy |
| Profiles.BuildSocial | routes/api/profile.js:91-107 | each network is copied exactly when truthy; a truthy instagram throws the uncaught ReferenceError |
| Profiles.BuildProfileFields | routes/api/profile.js:39-107 | an empty status or skills gives the validator's 400 list; otherwise a truthy instagram throws; otherwise the fields hold the acting id, the status, the parsed skills and each truthy input |
| AlertReducer.Without | client/src/reducers/alert.js:12 | the filter keeps exactly the alerts whose id differs and never grows the list |
| AlertReducer.StartsEmpty | client/src/reducers/alert.js:3-5 | the state before the first action is the empty list |
| AlertReducer.SetAlertAppends | client/src/reducers/alert.js:9-10 | SET_ALERT appends the payload at the end and keeps the earlier alerts as a prefix |
| AlertReducer.OtherKeepsState | client/src/reducers/alert.js:13-14 | any other action returns the state unchanged |
| AlertReducer.WithoutConcat | client/src/reducers/alert.js:12 | the filter works part by part and keeps the order of what it keeps |
| AlertReducer.WithoutOne | client/src/reducers/alert.js:12 | on one alert the filter keeps it exactly when its id differs |
| AlertReducer.RemoveAlertKeepsOthers | client/src/reducers/alert.js:11-12 | REMOVE_ALERT keeps exactly the alerts with other ids and leaves none with the id |
| AlertReducer.RemoveAlertMissing | client/src/reducers/alert.js:12 | REMOVE_ALERT with an id that is not present returns the input |
| AlertReducer.RemoveAlertIdempotent | client/src/reducers/alert.js:12 | REMOVE_ALERT twice with the same id equals REMOVE_ALERT once |
| AlertReducer.SetThenRemove | client/src/reducers/alert.js:10-12 | for an id not yet present, SET_ALERT then REMOVE_ALERT returns the original state |

## Left out

- Database calls are inputs or are left out: `findById`, `findOne`, `findOneAndUpdate`,
  `save`, `remove`, `populate`, `sort` and the delete cascade. The fetched document is a
  parameter, and `null` stands for no document. Saving is the assignment to the
  document's field.
- Minting of sub-document ids is a fresh-id parameter. The model does not guarantee
  freshness; `ExperienceIdsStayDistinct` and `EducationIdsStayDistinct` require it.
- DELETE /posts/:id is modelled up to the ownership decision. The `post.remove()` call and
  the catch branch for a malformed ObjectId (cast errors raised by the database layer) are
  left out. The same cast-error branch in DELETE /posts/comment is left out.
- POST /profile is modelled up to the built `profileFields`. The upsert at
  routes/api/profile.js:109-129 is database work, and its catch answers 400 with the
  validator's (empty) list.
- Token verification (`middleware/auth`) is not part of this model. The acting user id is
  a parameter.
- Express routing and the response calls are left out; a handler's result is its
  `Outcome` or `Result`. The express-validator internals are reduced to "an empty field
  gives its message".
- The read-modify-write race between a handler's check and its save belongs to the
  storage layer and is not modelled.
- The GitHub repositories route, the other post and profile routes that only read or
  create documents, `routes/api/auth.js` and `routes/api/users.js` are left out. They
  are database fetches or outbound HTTP calls with no in-memory logic worth proving.
- Client code other than the alert reducer is left out: the React components, the store
  wiring, and `actions/alert.js`, which depends on `uuid` and timers.
- Comment dates and other schema defaults filled in by the database are not modelled.
- Body fields are taken as typed values: text fields are strings, where only the empty
  string is falsy, and `current` is a boolean. An absent `current` is stored as `undefined`
  by the experience and education routes (routes/api/profile.js:215-225, 289-299); a
  boolean cannot hold that. Falsy non-string JSON values such as `0` or `null` are not
  modelled.
- Each user id is compared as a string, as the routes do after `toString()`.

## Findings

| source | as written | input that shows it | evidently intended | confidence | as-written member | corrected member |
|---|---|---|---|---|---|---|
| routes/api/posts.js:226-231 | the index to splice is looked up by comment author (`comments.user`), so the acting user's first comment is removed | user u1 owns comments c1 then c2 and asks to delete c2: c1 is removed and c2 stays | look the index up by comment id, as the comment at line 224 says, and remove the requested comment | high, not executed | Posts.DeleteCommentRemovesOther | Posts.DeleteCommentByIdRemovesRequested |
