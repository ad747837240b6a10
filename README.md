# Blog back-office core, modelled in Dafny

This project models the logic of a Next.js blog with an admin area. The logic sits under the
UI markup and the ORM calls:

- the global admin check;
- the admin "create user" endpoint;
- organisation membership queries and member removal;
- the admin user list (search, role filter, initials) and its statistics cards;
- the slug rule;
- the database seeders for tags, users, posts, post tags, comments and views;
- the page-metadata builders;
- the sitemap.

The database is a `Database` class whose tables are sequence fields. Each create or delete is
a method that reassigns one table.

Everything the code obtains from outside becomes an explicit parameter:

- the session;
- thrown faults;
- argon2 hashing;
- zod's e-mail check;
- `randomUUID` ids;
- faker's random draws, as raw natural numbers reduced into faker's ranges;
- `new Date()`;
- `toISOString`;
- environment variables.

Modules, one per source file plus shared helpers:

- `Wrappers`, `Seqs`, `Text`: Option/Result, `Array.prototype.filter`, subsequences, ASCII case
  mapping, `includes`, `join`, JavaScript `\s`.
- `Schema`: the Prisma rows and the `Database` class.
- `Permissions`: `isAdmin`.
- `AdminUsersRoute`: the zod schema and `POST /api/admin/users`.
- `Members`, `Organizations`: the server actions.
- `UserTable`, `UserStats`: the admin list helpers.
- `Slug`, `SeedSupport`, `SeedTags`, `SeedUsers`, `SeedPosts`, `SeedComments`, `SeedViews`:
  the slug rule and the seeders.
- `Metadata`, `DynamicMetadata`, `Sitemap`: page metadata and the sitemap.

## Model

| member | source | states |
|---|---|---|
| Permissions.IsAdmin | src/server/permissions.ts:6-47 | `success` holds exactly when there is a session, the lookup does not throw, the user row exists and its role is admin or superAdmin. `error` is null exactly on success. No session gives "Not authenticated". A missing row gives "User not found". A non-admin role gives "Insufficient permissions". A thrown fault gives the thrown value, or "Failed to check permissions" when that value is falsy. The thrown value is a string here. |
| Permissions.ThrownError | src/server/permissions.ts:40-46 | `error || "Failed to check permissions"`: the reported error is never empty, and it is the thrown value whenever that value is truthy (a non-empty string). |
| Permissions.NonAdminRolesRefused | src/server/permissions.ts:34-39 | A signed-in member or author always gets `{success: false, error: "Insufficient permissions"}`. |
| Permissions.AdminIffRole | src/server/permissions.ts:20-39 | With unique user ids, a signed-in user passes exactly when their own row has role admin or superAdmin. |
| Permissions.UniqueIdLookup | src/server/permissions.ts:20-24 | With unique ids, looking up a stored user's id finds that user. |
| Schema.UserById | src/server/permissions.ts:20-24 | `findUnique` by id: a result has that id and is in the table; none is found exactly when no row has the id. |
| Schema.WithoutMemberKeeps | src/server/members.ts:36-40 | After deleting by id, only rows with another id remain, and every such row remains. |
| Schema.WithoutPresentMember | src/server/members.ts:36-40 | When row k is the only row with the id, deleting that id removes exactly row k and keeps the order of the rest. |
| Schema.UniqueIdsOneRow | src/server/members.ts:36-40 | With unique ids, no other row shares row k's id. |
| Schema.WithoutAbsentMember | src/server/members.ts:36-40 | Deleting an id no row carries changes nothing. |
| Schema.Database.DeleteMember | src/server/members.ts:36-40 | The delete succeeds exactly when a row has the id; the table then loses that id; otherwise it is unchanged. |
| Schema.Database.CreateUser | prisma/seeders/users.ts:17-28 | `create` appends exactly one row and touches no other table. |
| Schema.Database.CreateAccount | prisma/seeders/users.ts:78-88 | `create` appends exactly one account row. |
| Schema.Database.CreateTag | prisma/seeders/tags.ts:25-31 | `create` appends exactly one tag row. |
| Schema.Database.CreatePost | prisma/seeders/posts.ts:21-37 | `create` appends exactly one post row. |
| Schema.Database.CreatePostTag | prisma/seeders/posts.ts:54-60 | `create` appends exactly one post-tag row. |
| Schema.Database.CreateComment | prisma/seeders/comments.ts:18-27 | `create` appends exactly one comment row. |
| Schema.Database.CreatePostView | prisma/seeders/views.ts:18-27 | `create` appends exactly one view row. |
| AdminUsersRoute.ParseRole | src/app/api/admin/users/route.ts:13 | Only the four enum strings are accepted, and each one is. |
| AdminUsersRoute.ParseRoleName | src/app/api/admin/users/route.ts:13 | Every role's name parses back to that role. |
| AdminUsersRoute.MinLengthIssues | src/app/api/admin/users/route.ts:10-12 | A `z.string().min(n)` field reports at most one issue, and none exactly when it is a string whose JavaScript `length` is at least n. That length counts UTF-16 code units, so a character above U+FFFF counts 2. |
| AdminUsersRoute.EmailIssues | src/app/api/admin/users/route.ts:11 | The e-mail field reports at most one issue, and none exactly when it is a string that passes the e-mail check. |
| AdminUsersRoute.RoleIssues | src/app/api/admin/users/route.ts:13 | The role field reports at most one issue, and none exactly when it is one of the four enum strings. |
| AdminUsersRoute.VerifiedIssues | src/app/api/admin/users/route.ts:14 | `emailVerified` reports no issue exactly when it is absent or a boolean. |
| AdminUsersRoute.Validate | src/app/api/admin/users/route.ts:9-15 | The input is accepted exactly under these conditions: the body is an object, name has at least 2 UTF-16 code units, e-mail is valid, password has at least 8, role is one of the enum, and emailVerified is absent or boolean. A refusal lists at least one issue. A body that is not an object gets the single root issue "Expected object, received <type>". An accepted input copies the fields, and emailVerified defaults to false. |
| AdminUsersRoute.IssuesEmptyIffAccepted | src/app/api/admin/users/route.ts:9-15 | zod reports no issue exactly when the body meets every field rule. |
| AdminUsersRoute.VerifiedDefaultsFalse | src/app/api/admin/users/route.ts:14 | A body without `emailVerified` yields a user input that is not verified. |
| AdminUsersRoute.ShortPasswordRefused | src/app/api/admin/users/route.ts:12 | A password shorter than 8 UTF-16 code units is refused with "Password must be at least 8 characters". |
| AdminUsersRoute.AstralPasswordAccepted | src/app/api/admin/users/route.ts:12 | Four characters above U+FFFF are eight code units, so they pass `min(8)` with no issue. |
| AdminUsersRoute.Screen | src/app/api/admin/users/route.ts:17-42 | Checks run in order: admin gate, then validation, then e-mail uniqueness, and each outcome is characterised both ways. Forbidden exactly when `getCurrentUser` does not throw and the caller is not an admin. Invalid exactly when an admin sends a parsable body that the schema refuses, and then the issues are those of the schema. A JSON value that is not an object is Invalid with the single root issue. Duplicate exactly when an admin sends a valid body, the lookup does not throw and the e-mail is taken. Fault exactly when `getCurrentUser` throws, or an admin's body cannot be parsed, or the lookup throws. Admitted exactly when an admin sends a valid body with an unused e-mail. |
| AdminUsersRoute.ForbiddenWhateverTheBody | src/app/api/admin/users/route.ts:20-27 | A refused caller is refused before the body matters. |
| AdminUsersRoute.NonAdminCallerForbidden | src/app/api/admin/users/route.ts:20-27 | A signed-in member or author always gets 403. |
| AdminUsersRoute.Refusal | src/app/api/admin/users/route.ts:22-99 | The gate gives 403 with error "Unauthorized". Invalid input gives 400 with error "Invalid input data" and the schema's issues as details. A taken e-mail gives 400 with "Email already exists". Faults give 500 with "Internal server error". |
| AdminUsersRoute.View | src/app/api/admin/users/route.ts:73-84 | The response carries id, name, e-mail, role, verification and timestamps, and has no password field. |
| AdminUsersRoute.Post | src/app/api/admin/users/route.ts:17-100 | A refusal leaves both tables unchanged. A hash or user-create fault gives 500 and no change. An account-create fault gives 500 and keeps the new user row. Success appends one user with the given fields and then one credential account: `accountId = userId = user.id`, password `hash(password)`. It answers 200 with the user view. |
| AdminUsersRoute.CreatedRowsArePaired | src/app/api/admin/users/route.ts:48-71 | The created account belongs to the created user, has provider "credential" and stores `hash(password)` as its password. |
| Members.GuardAsWrittenNeverBlocks | src/server/members.ts:27-33 | The `!admin` test is false for every result `isAdmin` can return. |
| Members.NonAdminPassesWrittenGuard | src/server/members.ts:27-33 | A signed-in member gets `success: false` from `isAdmin` and still passes the guard. |
| Members.RemoveMemberAsWritten | src/server/members.ts:26-53 | As written, removal never answers "not authorized". It succeeds exactly when the delete does, whoever the caller is. |
| Members.RemoveMember | src/server/members.ts:26-53 | With the intended guard, a failed admin check answers "You are not authorized to remove members." and changes nothing. Otherwise: a successful delete removes exactly the row with that id and answers `{success: true, error: null}`. A failed delete answers "Failed to remove member." and changes nothing. |
| Members.DeleteOrFail | src/server/members.ts:35-52 | The try/catch around the delete: success exactly when a row has the id and the delete does not throw. |
| Members.RemovalDropsOneRow | src/server/members.ts:36-40 | With unique ids, removal shortens the table by one and keeps every other row. |
| Members.AddMember | src/server/members.ts:7-24 | Any failure of the auth call surfaces as "Failed to add member."; success returns normally. |
| Organizations.MemberOrgIds | src/server/organizations.ts:8-20 | The id list holds exactly the organisation ids of the user's member rows. |
| Organizations.GetOrganizations | src/server/organizations.ts:5-26 | The result is a subsequence of the organisation table. It holds an organisation exactly when one of the user's member rows names it. |
| Organizations.SameOrgIdsSameOrganizations | src/server/organizations.ts:17-23 | The result depends only on the set of ids. |
| Organizations.DuplicateMembershipIgnored | src/server/organizations.ts:17-23 | A repeated member row changes nothing. |
| Organizations.NoDuplicateOrganizations | src/server/organizations.ts:17-23 | If the table has no duplicates, neither does the result. |
| Organizations.GetActiveOrganization | src/server/organizations.ts:28-46 | No member row gives null. Otherwise the result is the organisation named by the user's first member row, or null when the table lacks it. |
| Organizations.JoinUsers | src/server/organizations.ts:54-60 | Each member is paired with the user row its `userId` names. |
| Organizations.GetOrganizationBySlug | src/server/organizations.ts:48-68 | Any thrown error gives null. Otherwise the result is the first organisation with the slug, if any. Its members are exactly the member rows of that organisation. Each is joined to the user whose id it names, or to none. |
| Seqs.Filter | src/components/admin/user-table.tsx:79 | `filter` keeps exactly the elements that satisfy the predicate, in order, as a subsequence. |
| Seqs.FilterMultiplicity | src/components/admin/user-table.tsx:79 | Every occurrence of a satisfying element is kept, and no occurrence of any other: multiplicities match `s` on the predicate and are 0 off it. |
| Seqs.FilterAppend | src/components/admin/user-stats.tsx:14 | Filtering distributes over concatenation. |
| Seqs.FilterDistinct | src/server/organizations.ts:17-23 | Filtering keeps a duplicate-free list duplicate-free. |
| Seqs.FirstIndex | src/server/organizations.ts:29-37 | The first position that satisfies the predicate, or none. |
| Seqs.FindFirst | src/server/organizations.ts:39-43 | `findFirst` gives a matching element, and gives none exactly when no element matches. |
| Text.Lower | src/components/admin/user-table.tsx:80-82 | `toLowerCase` keeps the length and lower-cases each ASCII letter. |
| Text.Upper | src/components/admin/user-table.tsx:104 | `toUpperCase` keeps the length and upper-cases each ASCII letter. |
| Text.StripWhitespace | src/lib/metadata.ts:69 | `replace(/\s+/g, '')` leaves no whitespace and never lengthens the string. |
| Text.StripIsFilter | src/lib/metadata.ts:69 | Removing whitespace equals filtering on "not whitespace". So the result keeps every other character, in order and with its multiplicity. |
| Text.Utf16Length | src/app/api/admin/users/route.ts:10-12 | JavaScript `length` lies between the number of characters and twice that number. |
| Text.Utf16LengthBmp | src/app/api/admin/users/route.ts:10-12 | Without characters above U+FFFF, `length` is the number of characters. |
| Text.ContainsEmpty | src/components/admin/user-table.tsx:80-82 | Every string includes the empty string, so an empty search matches everyone. |
| UserTable.FilteredUsers | src/components/admin/user-table.tsx:79-87 | The result is an order-preserving subsequence. Every kept user's lower-cased name or e-mail contains the lower-cased term, and the role matches unless the filter is "all". Every user meeting both conditions is kept. |
| UserTable.NoFilterShowsAll | src/components/admin/user-table.tsx:79-87 | An empty term with filter "all" shows the whole list. |
| UserTable.SplitOnSpace | src/components/admin/user-table.tsx:101 | `split(" ")` gives at least one word, and no word contains a space. |
| UserTable.SplitJoinRoundTrip | src/components/admin/user-table.tsx:101 | Joining the split words with " " gives back the name. |
| UserTable.FirstCharsAreWordStarts | src/components/admin/user-table.tsx:101-103 | The first characters of the split words are the characters that start a word in the name. Empty words give nothing. |
| UserTable.GetInitials | src/components/admin/user-table.tsx:99-106 | Initials have at most 2 characters and no lower-case letter. They are the upper-cased first two word starts of the name. |
| UserTable.BlankNameNoInitials | src/components/admin/user-table.tsx:99-106 | An empty or all-space name gives "". |
| UserTable.TwoWordInitials | src/components/admin/user-table.tsx:99-106 | A name made of two space-free words separated by one space gives the two first letters, upper-cased ("ada lovelace" gives "AL"). |
| UserTable.WordStartsSkipWord | src/components/admin/user-table.tsx:101-103 | Inside a word no initial is taken; the next one comes from the word after the space. |
| UserStats.ComputeTotals | src/components/admin/user-stats.tsx:13-15 | The total is the list length. Verified counts users with `emailVerified`. Unverified = total - verified, which is the number of unverified users and lies between 0 and the total. |
| UserStats.FilterSplits | src/components/admin/user-stats.tsx:14-15 | A predicate and its negation split a list's length. |
| UserStats.CountRoleStep | src/components/admin/user-stats.tsx:17-20 | Each step of the `reduce` raises only the visited user's role count by one. |
| UserStats.TallyStep | src/components/admin/user-stats.tsx:17-20 | Each step of the `reduce` keeps the map exact for the users seen so far: keys are the roles present, values their counts. |
| UserStats.RoleCounts | src/components/admin/user-stats.tsx:17-20 | A role is a key exactly when some user holds it, and its value is the number of such users. |
| UserStats.RoleStats | src/components/admin/user-stats.tsx:46-71 | Four cards, in the order Super Admin, Admin, Author, Member. Each card shows its role's count from the map, and 0 for a role missing from it. |
| UserStats.RoleCountsPartition | src/components/admin/user-stats.tsx:17-20 | The four role counts sum to the number of users. |
| UserStats.DisplayedCountsSumToTotal | src/components/admin/user-stats.tsx:17-71 | Each displayed count equals the role's count, and the four displayed counts sum to `totalUsers`. |
| Slug.SlugifyShape | prisma/seeders/tags.ts:29 | A slug uses only `a-z`, `0-9` and `-`. It never starts or ends with `-` and never contains `--`. |
| Slug.CollapseShape | prisma/seeders/tags.ts:29 | The run replacement uses the slug alphabet and produces no `--`. Inside a run, its output does not start with `-`. |
| Slug.TrimShape | prisma/seeders/tags.ts:29 | Trimming one leading and one trailing `-` from such a string leaves no `-` at either end. |
| Slug.SlugifyKeepsContent | prisma/seeders/tags.ts:29 | Deleting the dashes of a slug gives exactly the ASCII alphanumerics of the lower-cased input, in order. |
| Slug.CollapseKeepsSlugChars | prisma/seeders/tags.ts:29 | The run replacement keeps every `[a-z0-9]` character, in order. |
| Slug.TrimKeepsNonDashes | prisma/seeders/tags.ts:29 | Trimming removes only dashes. |
| Slug.SlugifyFixesSlugs | prisma/seeders/tags.ts:29 | A string already of slug shape is its own slug. |
| Slug.CollapseFixesSlugs | prisma/seeders/tags.ts:29 | The run replacement leaves a string of slug shape unchanged. |
| Slug.SlugifyIdempotent | prisma/seeders/tags.ts:29 | slug(slug(s)) = slug(s). |
| SeedTags.TagRow | prisma/seeders/tags.ts:25-31 | A tag row copies its name verbatim, and its slug has the slug shape. |
| SeedTags.SeedTags | prisma/seeders/tags.ts:20-37 | Exactly one row per list entry (78), in list order, each the list name with its slug. The table gains exactly those rows. |
| SeedTags.SeededTagsAreSlugged | prisma/seeders/tags.ts:24-35 | Every seeded tag carries its list name, and its slug is a fixed point of the slug rule. |
| SeedSupport.Between | prisma/seeders/posts.ts:33 | `faker.number.int({min, max})` stays within `[min, max]`. |
| SeedSupport.Pick | prisma/seeders/comments.ts:17 | `arrayElement` returns an element of the list. |
| SeedSupport.DateBetween | prisma/seeders/comments.ts:24 | A date between `from` and `to` lies in that range. It exists exactly when `from <= to`; otherwise faker throws. |
| SeedSupport.Sample | prisma/seeders/posts.ts:50 | `arrayElements(s, k)` returns `min(k, |s|)` elements taken from `s`. They are distinct when `s` is distinct. |
| SeedSupport.SumBounded | prisma/seeders/comments.ts:14 | Counts that are each at most b sum to at most b per entry. |
| SeedSupport.PlannedPostIds | prisma/seeders/comments.ts:13-30 | The nested loop creates as many rows as the counts sum to. |
| SeedSupport.PlannedStep | prisma/seeders/comments.ts:13-30 | One more post adds its block of ids at the end of the plan. |
| SeedSupport.LastPostApart | prisma/seeders/comments.ts:13-30 | With distinct ids, dropping the last post keeps ids distinct, and the last post's id occurs nowhere before it. |
| SeedSupport.PlannedPerPost | prisma/seeders/comments.ts:13-30 | With distinct post ids, post i receives exactly its own count of rows. |
| SeedSupport.FilterKeepsDistinctIds | prisma/seeders/comments.ts:10 | Filtering posts with distinct ids keeps the ids distinct. |
| SeedSupport.DrawCounts | prisma/seeders/views.ts:14 | One drawn count per post, each at most the maximum. |
| SeedSupport.DrawCountsAre | prisma/seeders/views.ts:14 | Post i's count is faker's reduction of the i-th draw. |
| SeedUsers.SeedUser | prisma/seeders/users.ts:15-72 | User 0 is "Super Admin" (superadmin@example.com) and user 1 "Admin User" (admin@example.com), both verified. Users 2-6 are verified authors and the rest members with a coin-flip verification. Every user has the avatar, the creation date drawn for it and an update time of now. |
| SeedUsers.SeedAccount | prisma/seeders/users.ts:78-88 | Each account has `accountId = userId = user.id`, provider "credential", the shared hash, and the user's creation date. |
| SeedUsers.SeedAccounts | prisma/seeders/users.ts:76-90 | One account per user, in user order, each built from its user. |
| SeedUsers.SeedUsers | prisma/seeders/users.ts:8-94 | Exactly 17 users are created in roster order, then one account per user in the same order, all with `hash("asdffdsa")`. Both tables gain exactly those rows. |
| SeedUsers.PlannedRoleCounts | prisma/seeders/users.ts:15-72 | After n roster entries the role counts are 1, 1, up to 5 authors, and n - 7 members. |
| SeedUsers.RoleCountFollowsPlan | prisma/seeders/users.ts:15-72 | The role count of the first n seeded users follows the roster. |
| SeedUsers.SeededRoleMix | prisma/seeders/users.ts:15-72 | The roster is 1 superAdmin, 1 admin, 5 authors and 10 members. |
| SeedUsers.SeededVerification | prisma/seeders/users.ts:17-55 | The two fixed accounts are verified, and so is every author. |
| SeedUsers.OneAccountPerUser | prisma/seeders/users.ts:76-90 | With distinct user ids, each user has exactly one account, and every account stores the same hash. |
| SeedPosts.AuthorPool | prisma/seeders/posts.ts:12 | The author pool is exactly the users whose role is author, admin or superAdmin. |
| SeedPosts.DraftPost | prisma/seeders/posts.ts:12-37 | A post's author is a non-member user, and its category exists. Its slug is the title's slug. `publishedAt` is set exactly when the status is published. `viewCount` is at most 1000. |
| SeedPosts.SeedPosts | prisma/seeders/posts.ts:7-43 | With no eligible author, category or status, nothing is written. Otherwise exactly 50 posts are appended, each built from its draws. |
| SeedPosts.SeededAuthorsAreNotMembers | prisma/seeders/posts.ts:12-32 | Every seeded post's author is a user whose role is not member. |
| SeedPosts.TagSelection | prisma/seeders/posts.ts:49-50 | A non-empty tag list gives 1 to 5 tags. They come from the list and are distinct when the list is. |
| SeedPosts.LinkPost | prisma/seeders/posts.ts:52-62 | For one post, one post-tag row per chosen tag is appended in order; earlier rows are kept. |
| SeedPosts.SeedPostTags | prisma/seeders/posts.ts:45-66 | Existing rows are kept. The new rows link, post after post, each post to each of its selected tags, in order. |
| SeedPosts.LinksOfPost | prisma/seeders/posts.ts:48-62 | With distinct post ids, the links of a post are exactly its selected tags. |
| SeedPosts.NoLinksOfAbsentPost | prisma/seeders/posts.ts:48-62 | A post id outside the list receives no link. |
| SeedPosts.PostTagsPerPost | prisma/seeders/posts.ts:48-62 | Each post gets 1 to 5 post-tag rows with distinct tags from the list. |
| SeedComments.CommentTargets | prisma/seeders/comments.ts:10-13 | The targets are the first 30 published posts, in order, or all of them when there are fewer. |
| SeedComments.CommentCounts | prisma/seeders/comments.ts:14 | Each target's comment count is at most 10. |
| SeedComments.CommentOnPost | prisma/seeders/comments.ts:16-29 | For one post: existing rows are kept and `written` counts the new ones. Each new comment is well formed. On completion there are exactly n rows for the post. A throw happens only part-way through the n comments (`written < n`), and only when there is no user or the post is dated after now. |
| SeedComments.SeedComments | prisma/seeders/comments.ts:7-33 | Existing rows are kept, and `commentCount` equals the rows created. Every comment belongs to a target, is written by a seeded user, and is dated between its post's creation and now. On completion, the rows follow the plan of per-post counts. A throw happens only at a target with a non-zero drawn count, and only when there is no user or that post is dated after now. |
| SeedComments.AppendKeepsOk | prisma/seeders/comments.ts:13-30 | Rows written in two batches are well formed exactly when both batches are, and their post ids concatenate. |
| SeedComments.CommentsPerPost | prisma/seeders/comments.ts:14-16 | With distinct post ids, each target gets exactly its drawn count, which is between 0 and 10. |
| SeedComments.CommentTotalBound | prisma/seeders/comments.ts:13-16 | At most 300 comments are planned. |
| SeedViews.ViewTargets | prisma/seeders/views.ts:10 | The targets are exactly the published posts. |
| SeedViews.ViewCounts | prisma/seeders/views.ts:14 | Each target's view count is at most 100. |
| SeedViews.ViewPost | prisma/seeders/views.ts:16-29 | For one post: existing rows are kept and `written` counts the new ones. Each new view is well formed. On completion there are exactly n rows for the post. A throw happens only at view `written < n`, and only when that view's coin asks for a user and there is none, or the post is dated after now. |
| SeedViews.SeedPostViews | prisma/seeders/views.ts:7-33 | Existing rows are kept, and `viewCount` equals the rows created. Every view belongs to a published post, is anonymous or by a seeded user, and is dated between its post's creation and now. On completion, the rows follow the plan of per-post counts. A throw happens only at a target that is dated after now, or at a target one of whose planned views has a coin asking for a user while there is none. |
| SeedViews.AppendKeepsOk | prisma/seeders/views.ts:13-30 | Rows written in two batches are well formed exactly when both batches are, and their post ids concatenate. |
| SeedViews.ViewsPerPost | prisma/seeders/views.ts:13-16 | With distinct post ids, each published post gets exactly its drawn count, which is between 0 and 100. |
| Metadata.AppUrl | src/lib/metadata.ts:20 | The site URL is the environment value when that is non-empty, and "http://localhost:3000" otherwise. |
| Metadata.Over | src/lib/metadata.ts:25 | A spread key that is present wins, even when its value is undefined. An absent key keeps the default. |
| Metadata.Handle | src/lib/metadata.ts:69 | The Twitter handle is "@" followed by the lower-cased author name with its whitespace removed. So no whitespace and no upper-case letter follows the "@". |
| Metadata.StripKeepsNoUpper | src/lib/metadata.ts:69 | Removing whitespace from a lower-cased name adds no upper-case letter. |
| Metadata.GenerateMetadata | src/lib/metadata.ts:15-86 | Fields are stated in terms of the caller's keys: title, description, URL and type are the given key or the default. The template is always "%s \| " followed by the site name, "Next.js Blog App". Keywords are joined with ", ". `authors` is `[author]` exactly when an author is truthy. Open Graph and Twitter images exist exactly when the image is truthy; the Open Graph one is 1200×630 with alt = title. The published and modified times appear exactly when the given value is truthy, and then they are that value. The creator handle is "@" + the lower-cased author with whitespace removed. |
| Metadata.TemplateIgnoresConfig | src/lib/metadata.ts:28-52 | The title template and the Open Graph site name do not depend on the configuration. |
| Metadata.StaticPageMetadata | src/lib/metadata.ts:89-128 | The argument-less presets keep their titles and descriptions, type website and the default image. |
| Metadata.PostPage | src/lib/metadata.ts:130-138 | Post pages have type "article" and image "/og-post.jpg" with alt = title. Authors and published time appear exactly when truthy, the published time being the one given. There is never a modified time. |
| Metadata.CategoryPage | src/lib/metadata.ts:140-144 | The category title is "name Articles", with the fixed description prefix. |
| Metadata.TagPage | src/lib/metadata.ts:146-150 | The tag title is "#name", with the fixed description. |
| DynamicMetadata.GenerateDynamicMetadata | src/lib/dynamic-metadata.ts:4-43 | Type "user" gives title + "'s Profile" and type profile. Type "post" gives an article. Any other unknown type falls back to a website page with the given title and description. |
| DynamicMetadata.PostIgnoresExtras | src/lib/dynamic-metadata.ts:15-21 | A post page ignores `image`, `url` and `modifiedTime`. |
| DynamicMetadata.CategoryUsesTitleAndDescription | src/lib/dynamic-metadata.ts:23-24 | A category page depends only on title and description. |
| DynamicMetadata.TagUsesTitleOnly | src/lib/dynamic-metadata.ts:26-27 | A tag page depends only on the title. |
| DynamicMetadata.PostDescription | src/lib/dynamic-metadata.ts:58 | The description is the excerpt when non-empty. Otherwise it is the first min(160, length) characters of the content plus "...", even for short content. |
| DynamicMetadata.PostMetadata | src/lib/dynamic-metadata.ts:46-62 | A post page carries the derived description. It has no published time when `publishedAt` is null. |
| DynamicMetadata.CategoryMetadata | src/lib/dynamic-metadata.ts:65-71 | The category helper equals the "category" dispatch. |
| DynamicMetadata.TagMetadata | src/lib/dynamic-metadata.ts:74-79 | The tag helper ignores the description and equals the "tag" dispatch. |
| Sitemap.StaticPages | src/app/sitemap.ts:8-39 | There are five static pages, all stamped now. Home is daily at 1.0, dashboard daily at 0.8, profile weekly at 0.7, and login and signup monthly at 0.5. |
| Sitemap.PostPages | src/app/sitemap.ts:52-57 | One entry per post under "/posts/" + slug, dated by the post's update time, weekly, priority 0.8. |
| Sitemap.CategoryPages | src/app/sitemap.ts:67-72 | One entry per category under "/categories/" + slug, weekly, priority 0.6. |
| Sitemap.TagPages | src/app/sitemap.ts:81-86 | One entry per tag under "/tags/" + slug, stamped now, monthly, priority 0.5. |
| Sitemap.BuildSitemap | src/app/sitemap.ts:4-93 | A query failure returns exactly the static pages. Success returns 5 + published posts + categories + tags entries, and the static pages come first. |
| Sitemap.SitemapOrder | src/app/sitemap.ts:52-88 | After the static pages come posts, then categories, then tags, each in table order, under "/posts/", "/categories/" and "/tags/". |
| Sitemap.PublishedPostsListed | src/app/sitemap.ts:43-57 | Every published post has an entry under "/posts/". |
| Sitemap.OnlyPublishedPostsListed | src/app/sitemap.ts:43-57 | Every post entry belongs to a published post. |

## Left out

- Rendering, React state, toasts and routing in the admin components. Only `filteredUsers`, `getInitials`, the totals, `roleCounts` and `roleStats` are modelled.
- `getCurrentUser` and `auth.api.getSession`: the session lookup is a parameter; whether it throws is a flag.
- `auth.api.addMember`: an opaque call whose failure is a parameter.
- argon2 `hash`, zod's e-mail regex, `randomUUID`, faker and `new Date()`: they are parameters. Each seeder receives its draws as functions of the loop indices.
- `new URL(metadata.url!)` at src/lib/metadata.ts:42: it throws on an undefined or malformed URL, and that is not modelled. The `robots`, `formatDetection` and `verification` blocks are constants or environment reads and are not part of the record.
- `toLowerCase`/`toUpperCase` are modelled on ASCII letters only. `slice(0, 160)` counts characters rather than UTF-16 code units.
- UserTable.GetInitials: `n[0]` and `.slice(0, 2)` take characters, not UTF-16 code units. A name starting with a surrogate pair gives a different initial in the source.
- zod's messages for wrong JSON types inside the object (a number where a string is expected, and so on) are reduced to a single issue per field. A body that is not an object is modelled with its root issue.
- `Promise.all` in the seeders: creates are modelled in array order, one after another.
- Unique constraints (ids, e-mails, slugs) are not enforced by the tables. Lemmas that need unique ids require them.
- Each seeder reads the clock once; the source calls `new Date()` per row. AdminUsersRoute.Post and Sitemap.BuildSitemap do the same: one `now` stands for the four `new Date()` calls of the route (route.ts lines 55-56 and 68-69) and for the separate `new Date()` calls of the sitemap's static and tag entries.
- The members of the `PostStatus` enum are not part of this model beyond `published`. `Object.values(PostStatus)` is a parameter.
- prisma/seed.ts, prisma/seeders/categories.ts, prisma/seeders/verifications.ts and src/app/manifest.ts: plumbing and fixtures, not part of this model.
- AdminUsersRoute.Post: the success status is 200, as the code returns. A 201 Created is not modelled.
- SeedComments.SeedComments and SeedViews.SeedPostViews: on a throw part-way, the model reports `completed == false` and keeps the rows written so far. The error it rethrows is not modelled.
- Permissions.IsAdmin: a thrown value is modelled as a string. In the source an `Error` object is truthy and is returned as the `error` field as it is. Only a falsy thrown value (`""`, `null`, `undefined`, `0`) gives "Failed to check permissions". The model covers only the empty string.
- Permissions.ThrownError: the same restriction: its argument is a string, not an arbitrary thrown value.
- Sitemap.BuildSitemap: priorities are kept in tenths, because the model has no floating point.

## Findings

| source | as written | input that shows it | evidently intended | confidence | as-written member | corrected member |
|---|---|---|---|---|---|---|
| src/server/members.ts:28 | `if (!admin)` tests the object `isAdmin()` returns, and that object is always truthy | a signed-in user with role member: `isAdmin()` returns `{success: false, error: "Insufficient permissions"}`, so the guard passes and the delete runs | refuse unless `admin.success` | high (not executed) | Members.RemoveMemberAsWritten | Members.RemoveMember |
