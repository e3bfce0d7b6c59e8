# Blogs backend: a Dafny model of its list helpers, middleware and blog routes

This project models the parts of the blogs backend (an Express + Mongoose REST
service for blog posts and their owners) that hold sequential logic:

- `ListHelper` (`list_helper.dfy`): the aggregation helpers `dummy`,
  `totalLikes`, `favoriteBlog` and `mostBlogs` over a list of
  `{title, author, url, likes}` records. `_.sortBy` is modelled as a stable
  insertion sort and `_.countBy` as a fold that keeps keys in the order they
  were first added. `mostBlogs` keeps its loop: a `for` over those keys that
  replaces the best author only on a strictly larger count.
- `Middleware` (`middleware.dfy`): `getTokenFrom` (with JavaScript's
  first-occurrence `String.replace` and `includes` written out),
  `errorHandler`, `unknownEndpoint` and `tokenAuthentication`. Express's
  request and response objects are classes whose `user` and `sent` fields
  the middleware writes. `jwt.verify` with the server secret is a parameter
  of type `string -> Result<Decoded>`, left uninterpreted.
- `BlogsController` (`blogs_controller.dfy`): the four routes of the blogs
  router as methods of a `BlogStore` class. The class holds the blog
  collection (`map<BlogId, Blog>`), its storage order, the user collection
  with each user's `blogs` back-reference list, and the next free blog id.
- `Wrappers` (`wrappers.dfy`): `Option` (JavaScript `null`) and `Result`.

The model follows the code where it departs from what one might expect of
such a service:

- `PUT /api/blogs/:id` on an id with no blog answers 200 with a `null` body
  (`findByIdAndUpdate` yields `null`); there is no 404 for it.
- `tokenAuthentication` verifies on every request that is not a `GET` and
  not for the path `/api/login/`, whether or not an `Authorization` header is
  present. A missing header is therefore not treated as "no identity": it
  makes `jwt.verify(null)` throw a `JsonWebTokenError`, which `errorHandler`
  answers with 400 "token missing or invalid".
- `DELETE` does not remove the deleted id from the owner's `blogs` list. The
  model keeps `users` unchanged on delete.

Two points in the code the model has to assume around:

- `app.js:21` mounts `middleware.userExtractor`, which `middleware.js` does
  not export (it exports `tokenAuthentication`). The wiring is not modelled;
  `Middleware.TokenAuthentication` is modelled as the gate it evidently
  stands for.
- `controllers/blogs.js:24-25` calls `user.blogs.concat(...)` and
  `user.save()` on `request.user`, but `tokenAuthentication` attaches only
  `{username, id}` (`middleware.js:53-56`). The route model assumes that
  `request.user` is the full user document (`RequestUser`: id, username,
  name, blogs), and that `save()` writes it back under its id.

## Model

| member | source | states |
|---|---|---|
| ListHelper.Dummy | blogs-backend/utils/list_helper.js:3-5 | returns 1 for every argument, including an empty or absent list |
| ListHelper.TotalLikesAppend | blogs-backend/utils/list_helper.js:7-13 | `TotalLikes`, the `reduce` of line 12 written as a left fold, splits over any concatenation: the left-fold sum of likes splits over any concatenation, so it is the plain sum whatever the order of addition |
| ListHelper.TotalLikesCons | blogs-backend/utils/list_helper.js:7-13 | read from the front, the total is the first blog's likes plus the total of the rest; with the base case `TotalLikes([]) == 0` this pins down e.g. [10, 7] to 17 |
| ListHelper.TotalLikesNonNegative | blogs-backend/utils/list_helper.js:7-13 | when no blog has negative likes the total is not negative |
| ListHelper.TotalLikesBoundsEach | blogs-backend/utils/list_helper.js:7-13 | when no blog has negative likes the total is at least the likes of every single blog |
| ListHelper.InsertByLikes | blogs-backend/utils/list_helper.js:17 | one stable insertion step: the result holds exactly the old blogs plus the new one, stays in descending order of likes, and the new blog goes in front on a tie |
| ListHelper.SortByLikesDesc | blogs-backend/utils/list_helper.js:17 | `_.sortBy(blogs, b => -b.likes)` is a permutation of its input in descending order of likes |
| ListHelper.FirstMostLikedIndex | blogs-backend/utils/list_helper.js:17-19 | the earliest position whose likes are at least every blog's likes; every earlier blog has strictly fewer |
| ListHelper.SortHeadIsFirstMostLiked | blogs-backend/utils/list_helper.js:17-19 | the head of the stable sort is the blog at the first position of maximal likes |
| ListHelper.FavoriteBlog | blogs-backend/utils/list_helper.js:15-23 | null exactly for an absent or empty list; otherwise a blog of the list whose likes are at least every other blog's |
| ListHelper.FavoriteBlogIsFirstMostLiked | blogs-backend/utils/list_helper.js:15-20 | on ties `favoriteBlog` returns the first most-liked blog in input order |
| ListHelper.CountByKeys | blogs-backend/utils/list_helper.js:31 | for `CountBy`, the model of `_.countBy(blogs, 'author')`: the keys of the `countBy` object are exactly the authors of the list, each once, and the object is defined exactly on them |
| ListHelper.CountByValues | blogs-backend/utils/list_helper.js:31 | each key of the `countBy` object maps to the number of blogs by that author |
| ListHelper.CountByOrder | blogs-backend/utils/list_helper.js:31 | the keys enumerate in order of each author's first blog |
| ListHelper.CountByCounts | blogs-backend/utils/list_helper.js:31 | the three facts above together |
| ListHelper.ScanFindsMostBlogs | blogs-backend/utils/list_helper.js:32-42 | the key where the strict-`>` scan stops is an author of the list with its exact count (at least 1), no author has more, and every author that appears first earlier has strictly fewer |
| ListHelper.SingleBlogIsMostBlogs | blogs-backend/utils/list_helper.js:27-28 | the singleton answer `{author: blogs[0].author, blogs: 1}` is the author with the most blogs |
| ListHelper.MostBlogs | blogs-backend/utils/list_helper.js:25-46 | null exactly for an absent or empty list, `{author: blogs[0].author, blogs: 1}` for one blog, otherwise an author with the largest count, ties going to the author that appears first |
| Middleware.IndexOf | blogs-backend/utils/middleware.js:35 | `indexOf`: a returned position is an occurrence with none before it, and no position is returned only when there is no occurrence |
| Middleware.ContainsInfix | blogs-backend/utils/middleware.js:35 | `includes` is true for a string with the pattern anywhere in it |
| Middleware.GetTokenFrom | blogs-backend/utils/middleware.js:5-12 | with `ReplaceFirst` modelling the string-pattern `replace` of line 8: a token comes back if and only if the header is present and starts with the case-sensitive `"Bearer "`, and then the header is exactly `"Bearer "` followed by the token |
| Middleware.GetTokenFromRoundTrip | blogs-backend/utils/middleware.js:7-8 | `getTokenFrom` on `"Bearer " + t` gives back exactly `t`, even when `t` itself starts with `"Bearer "` |
| Middleware.ErrorResponse | blogs-backend/utils/middleware.js:29-40 | a response is sent exactly for `CastError`, `ValidationError`, `JsonWebTokenError` and a `MongoServerError` whose message includes the E11000 marker, and it always has status 400: "malformatted id" for `CastError`, the error's own message for `ValidationError`, "expected `username` to be unique" for a duplicate key, "token missing or invalid" for `JsonWebTokenError` |
| Middleware.ErrorHandler | blogs-backend/utils/middleware.js:26-43 | sends the response `ErrorResponse` gives (leaves the response alone for other names) and forwards the error to `next` except in the duplicate-key case |
| Middleware.DuplicateKeyAnswered | blogs-backend/utils/middleware.js:35-36 | a driver error with the E11000 marker anywhere in its message is a duplicate-key error, answered 400 "expected `username` to be unique" |
| Middleware.UnknownEndpoint | blogs-backend/utils/middleware.js:22-24 | always sends 404 `{error: 'unknown endpoint'}` |
| Middleware.Authenticate | blogs-backend/utils/middleware.js:45-60 | verification is skipped exactly for `GET` and the path `/api/login/`; on a gated request a missing bearer token or a failing `verify` throws a `JsonWebTokenError`, a verified payload without an `id` or with an empty one gives 401 "token invalid", and an attached identity carries a non-empty id and comes from verifying the bearer token of the header |
| Middleware.TokenAuthentication | blogs-backend/utils/middleware.js:45-60 | sets `request.user` only when an identity is attached, sends a response only on the 401, and calls `next` except on the 401 or a throw |
| Middleware.MissingBearerEndsAs400 | blogs-backend/utils/middleware.js:47-48 | a gated request without a usable bearer header throws, and the error handler answers it with 400 "token missing or invalid" |
| Middleware.NoIdRejects | blogs-backend/utils/middleware.js:48-51 | a gated request whose bearer token verifies to a payload with no `id` or an empty `id` is answered 401 "token invalid" |
| Middleware.ValidTokenAttaches | blogs-backend/utils/middleware.js:48-56 | a gated request whose bearer token verifies to a non-empty id attaches exactly `{username, id}` of the payload |
| BlogsController.Without | blogs-backend/controllers/blogs.js:45 | removing an id from the storage order keeps every other id and no duplicates |
| BlogsController.BlogStore.List | blogs-backend/controllers/blogs.js:5-10 | reads only, answers 200 with every stored blog once, in storage order, each entry carrying the stored fields and the owner expanded to id, username and name by `Populate` (the model of `.populate` at lines 6-8); because the store keeps every owner's user document, every listed blog has its owner expanded |
| BlogsController.BlogStore.Create | blogs-backend/controllers/blogs.js:12-28 | 401 "token invalid" and nothing changes without a user; otherwise the store grows by exactly one blog with a fresh id owned by the requester, that id is appended to the end of the requester's `blogs`, and 201 returns the saved blog |
| BlogsController.BlogStore.Delete | blogs-backend/controllers/blogs.js:30-47 | 401, then 404 "blog not found", then 403 when `IsOwner` (the owner comparison of line 41) fails, each leaving everything unchanged, in that order; the owner gets 204 and exactly that id is removed while every other blog and every user stay as they were |
| BlogsController.BlogStore.Update | blogs-backend/controllers/blogs.js:49-60 | needs no user; sets exactly title, author, url and likes, keeps the owner and every other blog, and returns the updated blog (null when the id has no blog) |

## Left out

- Logging (`logger.info`, `logger.error`, `requestLogger`) has no logical content and is not modelled.
- Express wiring, CORS, the database connection and `listen` (`app.js`, `index.js`) are not modelled; neither is the dangling `userExtractor` reference at `app.js:21`.
- JWT signature checking is foreign cryptography: `jwt.verify` is an uninterpreted parameter whose failure carries only a message and always surfaces as a `JsonWebTokenError`. The model assumes tokens carry no expiry claim (the signing code is not part of this model), so `TokenExpiredError`, which `errorHandler` would not answer, is not modelled.
- Mongoose validation (`runValidators`, required fields, the `likes` default) lives in model files that are not part of this model: every save and update succeeds, and the `ValidationError` path of the routes is reached only through `Middleware.ErrorHandler`.
- Blog ids are modelled as natural numbers handed out by the store, so the `CastError` raised by a malformed id is not produced by the routes; `Middleware.ErrorHandler` still models its translation.
- Every stored blog has an owner whose user document exists: blogs saved without a `user` (as test fixtures do directly in the database) and deleted users are not modelled. On such data `DELETE` would throw at `controllers/blogs.js:41` (`blog.user` is undefined), `errorHandler` would forward the `TypeError` unanswered, and the request would end as a 500; listing would show a `null` owner.
- The two-step create (save the blog, then save the user) is modelled as one atomic step; a failure between them is not modelled.
- Request bodies always carry all four content fields; `undefined` fields are not modelled.
- Async scheduling and the event loop are not modelled: each handler runs to completion.
- User registration and login live in routers that are not part of this model.
- `likes` is an unbounded `int`; JavaScript's floating-point numbers are not modelled.
- ListHelper.MostBlogs: the `for…in` order is modelled as the order in which authors first appear; JavaScript enumerates integer-like keys first in ascending order, which the model does not capture (author names are assumed not to be integer-like).
- ListHelper.FavoriteBlog: returns the blog's value; that JavaScript returns the very same object (aliasing) is not modelled.
