# A verified model of the mingchico CMS request-admission pipeline

This project models, in Dafny, the request-admission pipeline of a
multi-tenant content management system built on Spring, and the small
decision functions around it. One deployment serves many sites. Each
request is tied to a site (a tenant), throttled, traced, authenticated,
routed to a menu, checked against that menu's roles, sanitised and
finally themed. The model follows the Java code component by component:

- **Tenant resolution** (`Tenant`, `TenantContext`, `DomainTenantResolver`,
  `TenantFilter`, `TenantMetadataProvider`, `TenantRepository`,
  `TenantAdminService`). It covers the X-Tenant-ID override, the exact and
  wildcard domain rules, the result cache, the maintenance gate, the
  per-thread tenant cell, the metadata cache and the tenant administration
  calls that refresh the rules.
- **Accounts and bootstrap** (`Accounts`, `AdminDataInitializer`, `Principal`,
  `UserDetailsService`). It covers the stored users, tenants and memberships,
  the idempotent administrator bootstrap, principal identity on
  (email, site code), and the disabled and locked flags.
- **Ambient context** (`ContextHolder`). The request-scoped getters over an
  explicit record of ambient state: request id, client IP, channel, site
  code, current user and roles.
- **Sessions and authentication** (`SessionStrategy`, `Security`). It covers
  session-limit precedence and oldest-first expiry, the safe-redirect check,
  the failure messages and URL, the API-versus-browser entry point, and the
  auditor name.
- **Rate limiting** (`RateLimit`). It covers the skip rules, trusted-proxy
  client IP, key and capacity, a token-bucket map over an integer
  millisecond clock, Retry-After (section 10.2.3 of RFC 9110), the 429 answer
  (section 4 of RFC 6585) and fail-open.
- **Tracing and propagation** (`Mdc`, `MdcLogging`, `Async`). They cover the
  logging context, correlation-id validation and echo, and the
  capture/restore/clear of the asynchronous task decorator.
- **Messages, themes and XSS** (`I18n`, `Theme`, `Xss`, `UserProfile`). They
  cover the message look-aside cache with its null marker, insert-if-absent
  message sync, the theme catalogue, the memoised template check, view
  rewriting, first-rule XSS sanitising with the sanitiser as a parameter,
  the wrap-or-skip filter and the dynamic profile attributes.
- **Menus** (`Menu`, `MenuResolver`, `MenuRepository`, `MenuDto`,
  `MenuAdminService`, `MenuInterceptors`). They cover builder defaults, CSV
  role parsing, longest-pattern resolution, the subtree cascade on delete,
  DTO tree mapping, the administration service with its cache evictions,
  the per-thread menu cell and the three interceptors in their registered
  order.
- **Shared helpers**: `Wrappers` (Option and Result), `JavaStrings` (Java's
  trim, hasText with Java's Unicode whitespace, split with trailing empty
  pieces dropped, ASCII-only case folding, and the two-part cache keys), `Http` (a plain request record) and `AntMatch`. AntMatch is the
  part of Spring's AntPathMatcher the code relies on: literal segments, `*`
  inside a segment, `**` for any run of segments, with the separator (`'.'`
  for hosts, `'/'` for paths) as a parameter.

Objects whose fields the Java code updates in place are Dafny classes whose
methods carry `modifies` clauses. Caches and stores are `map` or `seq` fields.
Pure decisions are functions, and the properties the code and its tests
promise are lemmas. Where a method is proved against a specification
function, the method's `ensures` ties its new state to that function.

Where the code and its surrounding documentation disagree, the model
follows the code:

- `tryConsume` takes the key and the capacity, as the filter calls it. The
  capacity is used only when a key's bucket is created.
- `updateTenant` passes no theme to the three-argument `Tenant.update`.
- `TenantInfo` carries its seventh field, `features`, as an opaque value.
- Tenant refresh reads a single "all tenants" list.
- `loadUserByUsername` is modelled by its guards and flags, not by its
  return type.
- Unknown hosts are not cached.
- Menu resolution reads the site's menu list directly, because the
  self-call bypasses the `menu_list` cache.

## Model

| member | source | states |
|---|---|---|
| AntMatch.Tokens | src/main/java/com/mingchico/cms/core/menu/service/MenuResolver.java:31 | the tokens of a path are non-empty and never hold the separator |
| AntMatch.LiteralSegMatch | src/main/java/com/mingchico/cms/core/menu/service/MenuResolver.java:47 | a segment pattern without a star matches exactly itself |
| AntMatch.StarMatchesAll | src/main/java/com/mingchico/cms/core/tenant/DomainTenantResolver.java:43 | a single star segment matches any segment |
| AntMatch.LiteralMatch | src/main/java/com/mingchico/cms/core/menu/service/MenuResolver.java:47 | a pattern without a star matches exactly the paths with the same tokens and the same leading separator |
| AntMatch.DoubleStarMatchesAll | src/main/java/com/mingchico/cms/core/tenant/TenantFilter.java:42 | a double-star pattern matches any run of segments |
| AntMatch.PrefixPatternMatch | src/main/java/com/mingchico/cms/core/menu/service/MenuResolver.java:47 | literal segments followed by a double star match exactly the paths that start with those segments |
| AntMatch.StarPrefixMatch | src/main/java/com/mingchico/cms/core/tenant/DomainTenantResolver.java:43 | a leading star before literal host labels matches exactly one extra leading label |
| AntMatch.TokensOfJoin | src/main/java/com/mingchico/cms/core/xss/XssRequestWrapper.java:31 | cutting a separator-led join of non-empty segments gives those segments back |
| TenantDomain.ThemeOrDefault | src/main/java/com/mingchico/cms/core/tenant/domain/Tenant.java:67 | a null or blank requested theme gives "default"; any other is kept as given |
| TenantDomain.Tenant.Build | src/main/java/com/mingchico/cms/core/tenant/domain/Tenant.java:45-68 | the builder keeps site code, pattern, name and description, applies the theme fallback, and starts with maintenance and read-only off |
| TenantDomain.Tenant.Update | src/main/java/com/mingchico/cms/core/tenant/domain/Tenant.java:70-76 | name and description are always replaced; the theme only when a non-blank one is given; every other field is unchanged |
| TenantDomain.Tenant.SetMaintenance | src/main/java/com/mingchico/cms/core/tenant/domain/Tenant.java:47-50 | the maintenance flag takes the new value and nothing else changes |
| TenantThread.MaintenanceImpliesReadOnly | src/main/java/com/mingchico/cms/core/tenant/TenantContext.java:39-47 | a bound tenant in maintenance is read-only; without a bound tenant neither mode holds |
| TenantThread.TenantContext.GetTenant | src/main/java/com/mingchico/cms/core/tenant/TenantContext.java:22-24 | the bound tenant metadata; SetContext and Clear state what it holds afterwards |
| TenantThread.TenantContext.GetSiteCode | src/main/java/com/mingchico/cms/core/tenant/TenantContext.java:35-37 | the bound site code; SetContext states that it is the bound tenant's site code |
| TenantThread.TenantContext.IsMaintenanceMode | src/main/java/com/mingchico/cms/core/tenant/TenantContext.java:39-42 | holds exactly when a tenant is bound and its maintenance flag is set; its properties are stated by MaintenanceImpliesReadOnly and Clear |
| TenantThread.TenantContext.IsReadOnlyMode | src/main/java/com/mingchico/cms/core/tenant/TenantContext.java:44-47 | holds exactly when a tenant is bound and it is read-only or in maintenance; its properties are stated by MaintenanceImpliesReadOnly and Clear |
| TenantThread.TenantContext.SetContext | src/main/java/com/mingchico/cms/core/tenant/TenantContext.java:29-33 | a null argument leaves both cells as they were; otherwise the site code and the tenant cells both take the tenant's values |
| TenantThread.TenantContext.Clear | src/main/java/com/mingchico/cms/core/tenant/TenantContext.java:53-56 | both cells are empty afterwards |
| TenantFiltering.ShouldNotFilter | src/main/java/com/mingchico/cms/core/tenant/TenantFilter.java:45-51 | the loop answers true exactly when some excluded pattern matches the request URI |
| TenantFiltering.TenantFilter.DoFilterInternal | src/main/java/com/mingchico/cms/core/tenant/TenantFilter.java:54-86 | the outcome is the admission decision over the resolver's rules, the metadata cache and the store; on every exit the tenant context is empty and only the site-code key is gone from the logging context; the result cache gains the resolved host (unless the override header decided) and the metadata cache the loaded site, and neither changes otherwise |
| TenantFiltering.TenantFilter.DoFilter | src/main/java/com/mingchico/cms/core/tenant/TenantFilter.java:45-86 | an excluded URI reaches the chain with every context and cache untouched; any other request gets the admission decision, the cleanup and the cache updates of DoFilterInternal |
| TenantFiltering.Admission | src/main/java/com/mingchico/cms/core/tenant/TenantFilter.java:54-86 | the specification of doFilterInternal: 404 for an unresolved host, the metadata failure escaping, 503 for maintenance, otherwise the chain with the tenant and site code bound; its properties are stated by the lemmas below and DoFilterInternal is proved equal to it |
| TenantFiltering.UnknownHostIsNotFound | src/main/java/com/mingchico/cms/core/tenant/TenantFilter.java:78-80 | an unresolvable host is answered with 404 and the chain does not run |
| TenantFiltering.MaintenanceIsUnavailable | src/main/java/com/mingchico/cms/core/tenant/TenantFilter.java:66-70 | a site in maintenance is answered with 503 and the chain does not run |
| TenantFiltering.ActiveSiteIsBound | src/main/java/com/mingchico/cms/core/tenant/TenantFilter.java:72-76 | the chain of an active site sees the loaded tenant, its site code in the tenant context and the same site code in the logging context |
| TenantFiltering.MissingMetadataEscapes | src/main/java/com/mingchico/cms/core/tenant/TenantFilter.java:57-85 | a resolved site code without a tenant row escapes as the lookup failure naming the code, with no status set |
| TenantFiltering.ChainRunsOnlyForActiveSites | src/main/java/com/mingchico/cms/core/tenant/TenantFilter.java:57-76 | the chain runs if and only if the site resolves, has metadata and is not in maintenance |
| TenantMetadata.MapToInfo | src/main/java/com/mingchico/cms/core/tenant/service/TenantMetadataProvider.java:46-55 | the info copies id, site code, name, theme, maintenance and read-only from the row, with the features slot empty; MapToInfoIgnoresRest states that it depends on exactly those six fields |
| TenantMetadata.MapToInfoIgnoresRest | src/main/java/com/mingchico/cms/core/tenant/service/TenantMetadataProvider.java:46-55 | two tenants give the same metadata exactly when their id, site code, name, theme, maintenance and read-only flags agree |
| TenantMetadata.FromStore | src/main/java/com/mingchico/cms/core/tenant/service/TenantMetadataProvider.java:32-36 | a stored site code yields the mapped metadata of a row with that code; an unknown one yields the error "Unknown Site Code: " followed by the code |
| TenantMetadata.Lookup | src/main/java/com/mingchico/cms/core/tenant/service/TenantMetadataProvider.java:31-36 | a cached entry answers without the store; otherwise the store answers |
| TenantMetadata.LookupAnswersSiteCode | src/main/java/com/mingchico/cms/core/tenant/service/TenantMetadataProvider.java:31-36 | under a cache keyed by site code, a successful answer always belongs to the site code asked for |
| TenantMetadata.EvictedLookupReloads | src/main/java/com/mingchico/cms/core/tenant/service/TenantMetadataProvider.java:41-44 | after evicting a site code its next lookup reads the store, and other site codes answer as before |
| TenantMetadata.CachedAnswerIgnoresStore | src/main/java/com/mingchico/cms/core/tenant/service/TenantMetadataProvider.java:31 | a cached entry is answered whatever the store now holds, until it is evicted |
| TenantMetadata.TenantMetadataProvider.GetTenantInfo | src/main/java/com/mingchico/cms/core/tenant/service/TenantMetadataProvider.java:31-36 | the answer is the cache-aside lookup; a successful answer is cached under the site code, a failure caches nothing |
| TenantMetadata.TenantMetadataProvider.EvictCache | src/main/java/com/mingchico/cms/core/tenant/service/TenantMetadataProvider.java:41-44 | exactly that site code's entry is removed from the cache |
| TenantStore.TenantRepository.FindById | src/main/java/com/mingchico/cms/core/tenant/repository/TenantRepository.java:18 | a row is found if and only if some row has that id, and the found row has it |
| TenantStore.TenantRepository.ExistsByDomainPattern | src/main/java/com/mingchico/cms/core/tenant/repository/TenantRepository.java:21 | some row has that domain pattern; CreateTenant refuses a request for which it holds |
| TenantStore.TenantRepository.ExistsBySiteCode | src/main/java/com/mingchico/cms/core/tenant/repository/TenantRepository.java:24 | some row has that site code; CreateTenant refuses a request for which it holds |
| TenantStore.TenantRepository.FindBySiteCode | src/main/java/com/mingchico/cms/core/tenant/repository/TenantRepository.java:32-33 | a row is found if and only if some row has that site code, and the found row has it |
| TenantStore.TenantRepository.Save | src/main/java/com/mingchico/cms/core/tenant/domain/Tenant.java:24-34 | a new row gets the next identity value unless its pattern or site code is taken (a unique-constraint error, nothing stored); an existing id replaces that row; rows stay unique |
| TenantStore.TenantRepository.Delete | src/main/java/com/mingchico/cms/core/tenant/repository/TenantRepository.java:18 | the row with that id is removed and the others keep their order; an unknown id changes nothing |
| TenantResolution.WildcardIsContainsStar | src/main/java/com/mingchico/cms/core/tenant/DomainTenantResolver.java:89 | the wildcard test is exactly `contains("*")` |
| TenantResolution.RankLeTotal | src/main/java/com/mingchico/cms/core/tenant/DomainTenantResolver.java:89-90 | any two patterns are ordered by the comparator one way or the other |
| TenantResolution.RankLeTransitive | src/main/java/com/mingchico/cms/core/tenant/DomainTenantResolver.java:89-90 | the comparator's order is transitive |
| TenantResolution.InsertPermutes | src/main/java/com/mingchico/cms/core/tenant/DomainTenantResolver.java:89-90 | inserting into the sorted list adds exactly that tenant |
| TenantResolution.InsertSorted | src/main/java/com/mingchico/cms/core/tenant/DomainTenantResolver.java:89-90 | inserting into a sorted list keeps it sorted |
| TenantResolution.SortByPriority | src/main/java/com/mingchico/cms/core/tenant/DomainTenantResolver.java:89-90 | the stable sort of the tenants, star-free patterns first and longer before shorter; SortByPriorityCorrect states it is a stable, ordered permutation |
| TenantResolution.InsertOfRank | src/main/java/com/mingchico/cms/core/tenant/DomainTenantResolver.java:89-90 | insertion puts the new tenant after the earlier tenants of its own rank (stability) |
| TenantResolution.SortByPriorityCorrect | src/main/java/com/mingchico/cms/core/tenant/DomainTenantResolver.java:89-90 | the sort orders patterns without '*' first and longer before shorter, is a permutation of the stored tenants, and keeps store order within each rank |
| TenantResolution.PatternsOf | src/main/java/com/mingchico/cms/core/tenant/DomainTenantResolver.java:96-99 | the pattern list has one entry per tenant, in tenant order |
| TenantResolution.RulesOfMaps | src/main/java/com/mingchico/cms/core/tenant/DomainTenantResolver.java:96-99 | with distinct patterns the rule map sends every tenant's pattern to its site code and has no other key |
| TenantResolution.FirstWildcardFrom | src/main/java/com/mingchico/cms/core/tenant/DomainTenantResolver.java:152-157 | the first position holding a '*' pattern that matches the host, with every earlier one failing; none when no such pattern exists |
| TenantResolution.DomainTenantResolver.RefreshRules | src/main/java/com/mingchico/cms/core/tenant/DomainTenantResolver.java:79-116 | a successful load rebuilds the rule map and the ordered pattern list from the sorted tenants and empties the result cache; a failed load changes nothing; every cached result stays equal to what the current rules compute |
| TenantResolution.DomainTenantResolver.ResolveSiteCode | src/main/java/com/mingchico/cms/core/tenant/DomainTenantResolver.java:119-137 | the answer is the override header when present, otherwise the computed rule for the lower-cased host; only a found site code is cached; an unknown host is an error and caches nothing |
| TenantResolution.DomainTenantResolver.Expire | src/main/java/com/mingchico/cms/core/tenant/DomainTenantResolver.java:51-54 | dropping a cached result at any time keeps every other cached result correct |
| TenantResolution.ComputeSiteCode | src/main/java/com/mingchico/cms/core/tenant/DomainTenantResolver.java:144-160 | an exact rule for the host first, else the rule of the first matching wildcard in list order, else nothing; stated by ExactRuleWins, FirstWildcardWins and NoRuleUnknown |
| TenantResolution.HeaderOverrideWins | src/main/java/com/mingchico/cms/core/tenant/DomainTenantResolver.java:123-126 | a non-blank X-Tenant-ID header is the answer verbatim |
| TenantResolution.ExactRuleWins | src/main/java/com/mingchico/cms/core/tenant/DomainTenantResolver.java:146-148 | a host with an exact rule resolves to that rule, even when a wildcard also matches |
| TenantResolution.FirstWildcardWins | src/main/java/com/mingchico/cms/core/tenant/DomainTenantResolver.java:152-156 | without an exact rule the answer is the rule of the first matching wildcard in the list |
| TenantResolution.NoRuleUnknown | src/main/java/com/mingchico/cms/core/tenant/DomainTenantResolver.java:159 | with neither an exact rule nor a matching wildcard no site code is computed |
| TenantResolution.CaseInsensitiveHost | src/main/java/com/mingchico/cms/core/tenant/DomainTenantResolver.java:120 | hosts that differ only in letter case resolve alike |
| TenantResolution.UnknownNamesHost | src/main/java/com/mingchico/cms/core/tenant/DomainTenantResolver.java:132-134 | the unknown-tenant message contains the lower-cased host |
| TenantResolution.RefreshedRulesReflectStore | src/main/java/com/mingchico/cms/core/tenant/DomainTenantResolver.java:89-106 | after a refresh from patterns that are distinct, every stored pattern maps to its site code, no other key exists, and the pattern list is a permutation of the stored patterns |
| TenantResolution.DistinctAfterPermutation | src/main/java/com/mingchico/cms/core/tenant/DomainTenantResolver.java:89-99 | reordering the tenants keeps their patterns distinct |
| TenantResolution.SortThree | src/main/java/com/mingchico/cms/core/tenant/DomainTenantResolver.java:87-90 | an exact pattern, a wildcard and a longer exact pattern sort as longer exact, exact, wildcard |
| TenantResolution.ExampleOrder | src/test/java/com/mingchico/cms/core/tenant/DomainTenantResolverTest.java:34-41 | the test's three tenants sort with the exact patterns first and the longer one ahead |
| TenantResolution.ExampleRefresh | src/test/java/com/mingchico/cms/core/tenant/DomainTenantResolverTest.java:34-41 | the test's refresh yields the expected rule map and pattern list |
| TenantResolution.ShopMatchesWildcard | src/test/java/com/mingchico/cms/core/tenant/DomainTenantResolverTest.java:58-70 | "*.mingchico.com" matches "shop.mingchico.com" |
| TenantResolution.ExampleExact | src/test/java/com/mingchico/cms/core/tenant/DomainTenantResolverTest.java:72-85 | "admin.mingchico.com" resolves to SITE_ADMIN although the wildcard also matches |
| TenantAdministration.CreatedRow | src/main/java/com/mingchico/cms/core/tenant/service/TenantAdminService.java:41-46 | the stored row carries the request's pattern, site code, name and description with the default theme and both flags off |
| TenantAdministration.RulesCoverStore | src/main/java/com/mingchico/cms/core/tenant/service/TenantAdminService.java:51 | rules rebuilt from a table with unique indexes hold exactly the table's patterns, each mapped to its own site code |
| TenantAdministration.TenantAdminService.Refresh | src/main/java/com/mingchico/cms/core/tenant/service/TenantAdminService.java:51 | the resolver's rules are those built from the current table and its result cache is empty |
| TenantAdministration.TenantAdminService.CreateTenant | src/main/java/com/mingchico/cms/core/tenant/service/TenantAdminService.java:30-54 | a taken pattern is refused first and a taken site code second, both with nothing changed; otherwise the new row is appended, the resolver maps its pattern to its site code, its rules are rebuilt from the table and its result cache is emptied |
| TenantAdministration.TenantAdminService.UpdateTenant | src/main/java/com/mingchico/cms/core/tenant/service/TenantAdminService.java:57-70 | an unknown id is refused with nothing changed; otherwise only that row's name and description change, the theme stays, and the resolver's rules are rebuilt from the table with its result cache emptied |
| TenantAdministration.TenantAdminService.DeleteTenant | src/main/java/com/mingchico/cms/core/tenant/service/TenantAdminService.java:73-80 | an unknown id is refused with nothing changed; otherwise exactly that row is removed, the resolver no longer knows its pattern, its rules are rebuilt from the table and its result cache is emptied |
| Accounts.RoleKey | src/main/java/com/mingchico/cms/core/security/CustomUserDetails.java:56 | Role.getKey: "ROLE_" followed by the role's name; RoleKeyInjective states that distinct roles get distinct authority strings |
| Accounts.RoleKeyInjective | src/main/java/com/mingchico/cms/core/security/CustomUserDetails.java:56 | two roles have the same authority string if and only if they are the same role |
| Accounts.NewUser | src/main/java/com/mingchico/cms/core/user/domain/User.java:68-74 | the builder keeps e-mail, nickname and password, has no id yet, and a missing status becomes ACTIVE |
| Accounts.NewMembership | src/main/java/com/mingchico/cms/core/user/domain/Membership.java:51-57 | the builder links the user and the tenant, a missing role becomes USER and a missing status ACTIVE |
| Accounts.UserRepository.Insert | src/main/java/com/mingchico/cms/core/user/domain/User.java:33 | a user with a new e-mail is appended with the next id; a taken e-mail violates the unique index and stores nothing |
| Accounts.UserRepository.ExistsByEmail | src/main/java/com/mingchico/cms/core/user/repository/UserRepository.java:20 | some user has that e-mail; the bootstrap skips its run when it holds for the admin e-mail (BootstrapIdempotent) |
| Accounts.MembershipRepository.Insert | src/main/java/com/mingchico/cms/core/user/domain/Membership.java:20-22 | a membership of a new (user, tenant) pair is appended with the next id; a taken pair stores nothing |
| AdminBootstrap.Bootstrap | src/main/java/com/mingchico/cms/core/config/AdminDataInitializer.java:40-80 | the run as a function of the tables: unchanged when the admin e-mail exists, otherwise a new admin user, the configured tenant reused or created, and an ADMIN membership, or the constraint failure that rolls it all back; stated by BootstrapIdempotent, BootstrapCreates and BootstrapFailsOnTakenDomain |
| AdminBootstrap.BootstrapIdempotent | src/main/java/com/mingchico/cms/core/config/AdminDataInitializer.java:45-48 | running the bootstrap on its own result changes nothing |
| AdminBootstrap.BootstrapCreates | src/main/java/com/mingchico/cms/core/config/AdminDataInitializer.java:53-79 | a fresh bootstrap appends exactly one ACTIVE administrator and one ADMIN membership of that user in the tenant with the configured site code, adding at most one tenant |
| AdminBootstrap.BootstrapFailsOnTakenDomain | src/main/java/com/mingchico/cms/core/config/AdminDataInitializer.java:63-71 | the bootstrap fails if and only if the administrator is new, no tenant has the site code and the configured domain is already taken |
| AdminBootstrap.LinkedTenantHasSiteCode | src/main/java/com/mingchico/cms/core/config/AdminDataInitializer.java:63-79 | the membership a fresh bootstrap adds points to a tenant carrying the configured site code |
| AdminBootstrap.BootstrappedAdminLoads | src/main/java/com/mingchico/cms/core/config/AdminDataInitializer.java:53-79 | after a fresh bootstrap the administrator loads on the system site under its e-mail with the single ADMIN authority, enabled and not locked |
| AdminBootstrap.AdminDataInitializer.EnsureSystemTenant | src/main/java/com/mingchico/cms/core/config/AdminDataInitializer.java:63-71 | a registered site code gives its tenant's id with nothing stored; otherwise the system tenant row is stored unless its domain clashes |
| AdminBootstrap.AdminDataInitializer.CreateAdmin | src/main/java/com/mingchico/cms/core/config/AdminDataInitializer.java:52-79 | for an administrator not yet registered the tables end as the bootstrap function says, and the cross-table invariant holds; on failure all three tables are rolled back |
| AdminBootstrap.AdminDataInitializer.Run | src/main/java/com/mingchico/cms/core/config/AdminDataInitializer.java:38-85 | the tables end as the bootstrap function says, unchanged when the e-mail is already registered; on failure the transaction rolls back all three tables |
| SecurityPrincipal.ToInt32 | src/main/java/com/mingchico/cms/core/security/CustomUserDetails.java:80 | the result lies in the 32-bit signed range and is congruent to the input, as Java int arithmetic wraps |
| SecurityPrincipal.NewPrincipal | src/main/java/com/mingchico/cms/core/security/CustomUserDetails.java:49-62 | the principal copies the user's identity fields, keeps site and role, holds the single authority of the role, and is never expired |
| SecurityPrincipal.SamePrincipal | src/main/java/com/mingchico/cms/core/security/CustomUserDetails.java:70-76 | equals: the same e-mail and the same site code; SamePrincipalIsEquivalence, IdentityIgnoresRole and SitesSeparatePrincipals state its properties |
| SecurityPrincipal.Hash | src/main/java/com/mingchico/cms/core/security/CustomUserDetails.java:79-81 | hashCode: Objects.hash of e-mail and site code; SamePrincipalIsEquivalence states that equal principals hash alike |
| SecurityPrincipal.Username | src/main/java/com/mingchico/cms/core/security/CustomUserDetails.java:86 | getUsername: the e-mail; SamePrincipalIsEquivalence states that equal principals share it |
| SecurityPrincipal.SamePrincipalIsEquivalence | src/main/java/com/mingchico/cms/core/security/CustomUserDetails.java:69-81 | equality on (e-mail, site code) is an equivalence, and equal principals have equal hash codes and user names |
| SecurityPrincipal.IdentityIgnoresRole | src/main/java/com/mingchico/cms/core/security/CustomUserDetails.java:69-76 | principals of the same e-mail on the same site are equal whatever their role and flags |
| SecurityPrincipal.SitesSeparatePrincipals | src/main/java/com/mingchico/cms/core/security/CustomUserDetails.java:69-76 | the same account on two different sites gives two unequal principals |
| UserDetailsLoading.FindActiveMembership | src/main/java/com/mingchico/cms/core/user/repository/MembershipRepository.java:16-21 | a membership is found if and only if one joins a user with the e-mail to a tenant with the site code, and the found one does |
| UserDetailsLoading.LoadUserByUsername | src/main/java/com/mingchico/cms/core/security/CustomUserDetailsService.java:38-70 | without a bound site code, or without a membership there, the user is not found with the source's message; otherwise the e-mail is the user name, the role is the only authority, and disabled and locked follow the user and membership states |
| UserDetailsLoading.LockedIsDisabled | src/main/java/com/mingchico/cms/core/security/CustomUserDetailsService.java:65-66 | every locked account that loads is disabled as well |
| UserDetailsLoading.OtherSitesIgnored | src/main/java/com/mingchico/cms/core/security/CustomUserDetailsService.java:48-50 | a membership in another site changes nothing about a login |
| AmbientContext.GetRequestId | src/main/java/com/mingchico/cms/core/context/ContextHolder.java:49-51 | the logging context's correlation id, or "UNKNOWN" when it holds none |
| AmbientContext.GetClientIp | src/main/java/com/mingchico/cms/core/context/ContextHolder.java:57-66 | "0.0.0.0" without a request; the remote address when X-Forwarded-For is absent, empty or "unknown" in any case; otherwise the trimmed first comma-separated entry, and an index error for a header made only of commas |
| AmbientContext.ClientIpFailsOnlyOnCommas | src/main/java/com/mingchico/cms/core/context/ContextHolder.java:64 | the client address fails if and only if the usable forwarded-for header consists of commas alone |
| AmbientContext.ClientIpSingleHop | src/main/java/com/mingchico/cms/core/context/ContextHolder.java:64 | a forwarded-for value without a comma gives that value trimmed |
| AmbientContext.GetUserAgent | src/main/java/com/mingchico/cms/core/context/ContextHolder.java:71-73 | the User-Agent header, or "Unknown" without a request or without that header |
| AmbientContext.GetChannel | src/main/java/com/mingchico/cms/core/context/ContextHolder.java:78-89 | UNKNOWN without a request or without properties; otherwise the first of admin-API, API and admin whose prefix starts the URI, and WEB when none does |
| AmbientContext.DefaultChannels | src/main/java/com/mingchico/cms/core/context/ContextHolder.java:84-85 | with the default prefixes a URI under "/api/admin" is ADMIN_API, and another URI under "/api/" is API |
| AmbientContext.GetSiteCode | src/main/java/com/mingchico/cms/core/context/ContextHolder.java:98-101 | the bound site code unless it is missing or blank, then "DEFAULT"; the answer always has text |
| AmbientContext.GetTenantInfo | src/main/java/com/mingchico/cms/core/context/ContextHolder.java:108-110 | the bound tenant metadata, if any |
| AmbientContext.GetUser | src/main/java/com/mingchico/cms/core/context/ContextHolder.java:118-127 | a principal exactly when the authentication is present, authenticated, not anonymous and holds one, and then that principal |
| AmbientContext.GetUserId | src/main/java/com/mingchico/cms/core/context/ContextHolder.java:132-134 | an id exactly when there is a user whose id is set, and then that id |
| AmbientContext.GetRequiredUserId | src/main/java/com/mingchico/cms/core/context/ContextHolder.java:140-142 | the user's id when there is one, otherwise the error "User authentication is required." |
| AmbientContext.GetUsername | src/main/java/com/mingchico/cms/core/context/ContextHolder.java:147-149 | the user's nickname, or "Guest" without a user |
| AmbientContext.TargetRole | src/main/java/com/mingchico/cms/core/context/ContextHolder.java:156 | the authority always starts with "ROLE_"; a prefixed name is kept and any other gets the prefix |
| AmbientContext.HasRoleEitherSpelling | src/main/java/com/mingchico/cms/core/context/ContextHolder.java:155-161 | a role asked for with or without its prefix gives the same answer, and no role holds without a user |
| AmbientContext.PrincipalHasItsRole | src/main/java/com/mingchico/cms/core/context/ContextHolder.java:155-168 | a principal holding one role's authority has that role and no other |
| AmbientContext.RoleNameUnprefixed | src/main/java/com/mingchico/cms/core/context/ContextHolder.java:156 | no role name itself starts with "ROLE_" |
| AmbientContext.HasRole | src/main/java/com/mingchico/cms/core/context/ContextHolder.java:155-161 | the user holds the authority TargetRole gives for the name, and false without a user; stated by HasRoleEitherSpelling and PrincipalHasItsRole |
| AmbientContext.IsAdmin | src/main/java/com/mingchico/cms/core/context/ContextHolder.java:166-168 | hasRole("ADMIN") |
| AmbientContext.IsAuthenticated | src/main/java/com/mingchico/cms/core/context/ContextHolder.java:170-172 | a user is present, in the sense of GetUser |
| AmbientContext.IsAjaxRequest | src/main/java/com/mingchico/cms/core/context/ContextHolder.java:221-226 | a request is present and X-Requested-With is "XMLHttpRequest" or Accept is exactly "application/json"; stated by AcceptIsComparedExactly |
| AmbientContext.IsMaintenanceMode | src/main/java/com/mingchico/cms/core/context/ContextHolder.java:203-205 | delegates to the tenant binding: holds exactly when a tenant is bound and it is in maintenance; TenantThread.MaintenanceImpliesReadOnly relates it to IsReadOnlyMode |
| AmbientContext.IsReadOnlyMode | src/main/java/com/mingchico/cms/core/context/ContextHolder.java:211-213 | delegates to the tenant binding: holds exactly when a tenant is bound and it is read-only or in maintenance; TenantThread.MaintenanceImpliesReadOnly states that maintenance implies it |
| AmbientContext.AcceptIsComparedExactly | src/main/java/com/mingchico/cms/core/context/ContextHolder.java:221-226 | without a request nothing is Ajax, and an Accept header of JSON with a charset is not Ajax |
| SessionControl.MaximumSessions | src/main/java/com/mingchico/cms/core/security/TenantAwareSessionStrategy.java:36-66 | 1 for a principal that is not a member account and when session settings are absent; otherwise the site's limit if the site has one, else the role's limit if the role has one, else the default |
| SessionControl.SiteLimitOverridesRoleLimit | src/test/java/com/mingchico/cms/core/security/TenantAwareSessionStrategyTest.java:112-130 | when both a site policy and a role policy cover the user, the site policy's limit is used whatever the two values |
| SessionControl.ExpiredPrecedeKept | src/test/java/com/mingchico/cms/core/security/TenantAwareSessionStrategyTest.java:86-108 | every session chosen for expiry was used no later than every session that is kept |
| SessionControl.SingleExpiryIsOldest | src/test/java/com/mingchico/cms/core/security/TenantAwareSessionStrategyTest.java:86-108 | one session is expired exactly when it was used before every other session |
| SessionControl.ExpiryCount | src/main/java/com/mingchico/cms/core/security/TenantAwareSessionStrategy.java:26-28 | none expire when unlimited (-1), below the limit, or when the login's own session already fills the limit; otherwise n - limit + 1 expire so fewer than the limit remain, and the login is never refused; a limit of 0 or a negative other than -1 is an index error |
| SessionControl.FullAtLimitExpiresOnlyOldest | src/test/java/com/mingchico/cms/core/security/TenantAwareSessionStrategyTest.java:132-157 | a login that finds exactly the limit of foreign sessions expires one, the least recently used, and no other |
| SessionControl.SessionInformation.ExpireNow | src/main/java/com/mingchico/cms/core/security/TenantAwareSessionStrategy.java:26-28 | the session is marked expired and its last-request time is kept |
| SessionControl.CountPredecessors | src/test/java/com/mingchico/cms/core/security/TenantAwareSessionStrategyTest.java:86-108 | the loop counts exactly the sessions that come before the given one in least-recently-used order |
| SessionControl.IsRegistered | src/main/java/com/mingchico/cms/core/security/TenantAwareSessionStrategy.java:23-29 | true exactly when the login's session id is one of the registered sessions |
| SessionControl.ExpireOldest | src/test/java/com/mingchico/cms/core/security/TenantAwareSessionStrategyTest.java:86-108 | exactly the oldest count sessions become expired, the others keep their flag, and no last-request time changes |
| SessionControl.OnAuthentication | src/main/java/com/mingchico/cms/core/security/TenantAwareSessionStrategy.java:23-66 | the outcome is the expiry count for this user's limit, the expired sessions are exactly the oldest ones, and nothing else about any session changes |
| AuthenticationHandlers.SafeRedirectAsWritten | src/main/java/com/mingchico/cms/core/security/FormAuthenticationSuccessHandler.java:69-86 | isSafeRedirectUrl as written: a blank target is unsafe, any target starting with "/" is safe, any other is safe when its parsed host is absent or equals the server name ignoring case; stated by ProtocolRelativeTargetPasses and CorrectionOnlyNarrowsProtocolRelative |
| AuthenticationHandlers.LocalPath | src/main/java/com/mingchico/cms/core/security/FormAuthenticationSuccessHandler.java:75-77 | the corrected reading of the "/" test: one leading "/" not followed by "/" or a backslash |
| AuthenticationHandlers.SafeRedirect | src/main/java/com/mingchico/cms/core/security/FormAuthenticationSuccessHandler.java:69-86 | isSafeRedirectUrl with protocol-relative targets ("//" or "/" and a backslash) accepted only when they name this server; stated by SafeRedirectStaysOnSite, CorrectionOnlyNarrowsProtocolRelative and BackslashTargetRefused |
| AuthenticationHandlers.ProtocolRelativeTargetPasses | src/main/java/com/mingchico/cms/core/security/FormAuthenticationSuccessHandler.java:75-77 | the check as written accepts every target starting with "//", whatever host follows |
| AuthenticationHandlers.SafeRedirectStaysOnSite | src/main/java/com/mingchico/cms/core/security/FormAuthenticationSuccessHandler.java:69-86 | the corrected check accepts a target exactly when it has text and is a local path, names this server's host ignoring case, or is not protocol-relative and names no host; a protocol-relative target it accepts names this server |
| AuthenticationHandlers.CorrectionOnlyNarrowsProtocolRelative | src/main/java/com/mingchico/cms/core/security/FormAuthenticationSuccessHandler.java:69-86 | every target the corrected check accepts the original accepts too, and the two differ exactly on the protocol-relative targets ("//" or "/" and a backslash) that do not name this server, including those in which no host is found |
| AuthenticationHandlers.BackslashTargetRefused | src/main/java/com/mingchico/cms/core/security/FormAuthenticationSuccessHandler.java:75-85 | a "/" and backslash target in which the parser finds no host passes the check as written and is refused by the corrected one |
| AuthenticationHandlers.OnSuccessAsWritten | src/main/java/com/mingchico/cms/core/security/FormAuthenticationSuccessHandler.java:46-63 | without a saved request the default target "/"; a saved target the check as written accepts is used, any other is replaced by "/" |
| AuthenticationHandlers.SavedProtocolRelativeTargetFollowed | src/main/java/com/mingchico/cms/core/security/FormAuthenticationSuccessHandler.java:48-57 | a saved "//host" target naming another host is followed by the handler as written and replaced by "/" in the corrected one |
| AuthenticationHandlers.OnSuccess | src/main/java/com/mingchico/cms/core/security/FormAuthenticationSuccessHandler.java:46-63 | the corrected handler: without a saved request the default target "/"; a saved target the corrected check accepts is used, any other is replaced by "/" |
| AuthenticationHandlers.LoginNeverRedirectsOffSite | src/main/java/com/mingchico/cms/core/security/FormAuthenticationSuccessHandler.java:46-86 | with the corrected check the browser is sent to a local path (no second "/" or backslash after the first "/"), to a URL whose parsed host is this server's, or to a URL that is not protocol-relative and has no host |
| AuthenticationHandlers.FailureMessage | src/main/java/com/mingchico/cms/core/security/FormAuthenticationFailureHandler.java:34-43 | each of locked, disabled and bad credentials has its own message, and every other failure gets the default message; the four messages are told apart |
| AuthenticationHandlers.Utf8 | src/main/java/com/mingchico/cms/core/security/FormAuthenticationFailureHandler.java:48 | one to four bytes per character; a single byte exactly for ASCII, carrying the character's code, and bytes of 0x80 and above otherwise |
| AuthenticationHandlers.EncodeBytesRoundTrip | src/main/java/com/mingchico/cms/core/security/FormAuthenticationFailureHandler.java:48 | form decoding gives back exactly the bytes that were form encoded |
| AuthenticationHandlers.EncodeBytesCharset | src/main/java/com/mingchico/cms/core/security/FormAuthenticationFailureHandler.java:48 | an encoded value holds only unreserved characters, '+', '%' and upper-case hexadecimal digits |
| AuthenticationHandlers.UrlEncode | src/main/java/com/mingchico/cms/core/security/FormAuthenticationFailureHandler.java:48 | URLEncoder.encode over the UTF-8 bytes; stated by EncodeBytesRoundTrip and EncodeBytesCharset |
| AuthenticationHandlers.FailureUrl | src/main/java/com/mingchico/cms/core/security/FormAuthenticationFailureHandler.java:34-49 | the failure URL of an exception: the prefix and the encoded message FailureMessage picks; stated by FailureUrlCarriesMessage |
| AuthenticationHandlers.FailureUrlCarriesMessage | src/main/java/com/mingchico/cms/core/security/FormAuthenticationFailureHandler.java:48-49 | the failure URL is the login page with the error flag followed by the encoded message, which holds no '&', '=' or '#' and decodes to the message's UTF-8 bytes |
| AuthenticationHandlers.FailureUrlsDistinguishMessages | src/main/java/com/mingchico/cms/core/security/FormAuthenticationFailureHandler.java:34-49 | messages with different UTF-8 bytes lead to different failure URLs |
| AuthenticationHandlers.IsAjaxOrApiRequest | src/main/java/com/mingchico/cms/core/security/SmartAuthenticationEntryPoint.java:44-58 | an XMLHttpRequest marker, a content type starting with "application/json" or an Accept header containing it; stated through Commence, AcceptJsonIsApi and PlainBrowserIsRedirected |
| AuthenticationHandlers.Commence | src/main/java/com/mingchico/cms/core/security/SmartAuthenticationEntryPoint.java:25-58 | a JSON 401 with the fixed body exactly for an XMLHttpRequest marker, a JSON content type or an Accept header containing JSON; every other request is redirected to "/login" |
| AuthenticationHandlers.AcceptJsonIsApi | src/main/java/com/mingchico/cms/core/security/SmartAuthenticationEntryPoint.java:53-55 | an Accept header containing "application/json" gives the JSON error whatever the other headers say |
| AuthenticationHandlers.PlainBrowserIsRedirected | src/main/java/com/mingchico/cms/core/security/SmartAuthenticationEntryPoint.java:33-36 | a request with none of the three headers is redirected to the login page |
| Auditing.CurrentAuditor | src/main/java/com/mingchico/cms/core/config/JpaAuditConfig.java:28-47 | "SYSTEM" without an authentication, for one not authenticated, and for the anonymous principal; otherwise the authentication's name, which may be absent |
| Auditing.AuditorAbsentOnlyWithoutName | src/main/java/com/mingchico/cms/core/config/JpaAuditConfig.java:34-45 | the auditor is absent exactly for an authenticated, non-anonymous sign-in that has no name |
| RateLimiting.ShouldSkip | src/main/java/com/mingchico/cms/core/ratelimit/GlobalRateLimitFilter.java:147-159 | OPTIONS in any letter case, or a lower-cased URI starting with an excluded path or ending with an excluded extension; stated by SkipIgnoresUriCase, UpperCaseExclusionNeverMatches and ExemptRequestBypasses |
| RateLimiting.SkipIgnoresUriCase | src/main/java/com/mingchico/cms/core/ratelimit/GlobalRateLimitFilter.java:147-159 | exemption of a request does not change when its URI is lower-cased, because the prefixes and suffixes are compared with the lower-cased URI |
| RateLimiting.UpperCaseExclusionNeverMatches | src/main/java/com/mingchico/cms/core/ratelimit/GlobalRateLimitFilter.java:151-153 | an excluded path holding an upper-case letter can never match, since it is compared with the lower-cased URI |
| RateLimiting.FirstUsable | src/main/java/com/mingchico/cms/core/ratelimit/GlobalRateLimitFilter.java:181-183 | none exactly when no proxy header has text other than "unknown"; otherwise the value of the first such header in the fixed header order |
| RateLimiting.FirstHopOfHeaders | src/main/java/com/mingchico/cms/core/ratelimit/GlobalRateLimitFilter.java:181-190 | the header loop with its early return yields nothing when no header is usable, and otherwise the trimmed first hop of the first usable header, or the index failure for a value of commas alone |
| RateLimiting.ClientIp | src/main/java/com/mingchico/cms/core/ratelimit/GlobalRateLimitFilter.java:168-192 | the remote address unless it is a trusted proxy; from a trusted proxy the first hop of the first usable header, else the remote address; stated by UntrustedPeerUsesRemoteAddr, TrustedProxyFirstHeaderWins and ClientIpFailsOnlyOnCommas, and ResolveClientIp is proved equal to it |
| RateLimiting.ResolveClientIp | src/main/java/com/mingchico/cms/core/ratelimit/GlobalRateLimitFilter.java:168-192 | the result equals the client address function for every request: the remote address from an untrusted peer or when no header is usable |
| RateLimiting.UntrustedPeerUsesRemoteAddr | src/main/java/com/mingchico/cms/core/ratelimit/GlobalRateLimitFilter.java:172-178 | from a peer that is not a trusted proxy the address is the remote address, whatever the headers hold |
| RateLimiting.TrustedProxyFirstHeaderWins | src/main/java/com/mingchico/cms/core/ratelimit/GlobalRateLimitFilter.java:180-189 | from a trusted proxy the first usable header in order decides, through its first comma-separated hop, trimmed |
| RateLimiting.ClientIpFailsOnlyOnCommas | src/main/java/com/mingchico/cms/core/ratelimit/GlobalRateLimitFilter.java:185-186 | resolution fails only for a trusted proxy whose first usable header consists of commas alone |
| RateLimiting.EffectiveSite | src/main/java/com/mingchico/cms/core/ratelimit/GlobalRateLimitFilter.java:107-110 | the bound site code when it has text, otherwise "anonymous" |
| RateLimiting.RateKey | src/main/java/com/mingchico/cms/core/ratelimit/GlobalRateLimitFilter.java:116 | siteCode + ":" + clientIp + ":" + uri; SitesNeverShareKeys states that colon-free sites never share a key |
| RateLimiting.SitesNeverShareKeys | src/main/java/com/mingchico/cms/core/ratelimit/GlobalRateLimitFilter.java:114-116 | two different site codes without colons never produce the same bucket key, whatever the address and URI |
| RateLimiting.Capacity | src/main/java/com/mingchico/cms/core/ratelimit/GlobalRateLimitFilter.java:120-121 | the site's configured capacity, else the default; FirstRequestUsesSiteCapacity states that a site's first request draws on it |
| RateLimiting.RetryAfterSeconds | src/main/java/com/mingchico/cms/core/ratelimit/GlobalRateLimitFilter.java:131 | at least one second; one for any wait under two seconds; otherwise the whole seconds of the wait, rounded down |
| RateLimiting.Decimal | src/main/java/com/mingchico/cms/core/ratelimit/GlobalRateLimitFilter.java:128 | a non-empty string of decimal digits without a leading zero |
| RateLimiting.DecimalRoundTrip | src/main/java/com/mingchico/cms/core/ratelimit/GlobalRateLimitFilter.java:128 | reading a rendered count back gives the count |
| RateLimiting.DecimalInjective | src/main/java/com/mingchico/cms/core/ratelimit/GlobalRateLimitFilter.java:201 | different counts render as different header values |
| RateLimiting.NewBucket | src/main/java/com/mingchico/cms/core/ratelimit/LocalRateLimitProvider.java:57-69 | a new bucket holds its full capacity |
| RateLimiting.Refill | src/main/java/com/mingchico/cms/core/ratelimit/LocalRateLimitProvider.java:63-64 | greedy refill adds tokens in proportion to the time elapsed, never above capacity and never removing any |
| RateLimiting.MillisToToken | src/main/java/com/mingchico/cms/core/ratelimit/LocalRateLimitProvider.java:63-64 | a positive wait after which an empty bucket has refilled a whole token |
| RateLimiting.Consume | src/main/java/com/mingchico/cms/core/ratelimit/LocalRateLimitProvider.java:54 | one token is taken exactly when the refilled bucket holds one; a refusal leaves the bucket refilled and names a positive wait; the probe reports the whole tokens left |
| RateLimiting.TryConsumeSpec | src/main/java/com/mingchico/cms/core/ratelimit/LocalRateLimitProvider.java:51-69 | a key's bucket is created full at its first request; only that key's bucket changes; a non-positive capacity for a new key is an error that changes nothing |
| RateLimiting.FirstRequestLeavesCapacityMinusOne | src/test/java/com/mingchico/cms/core/ratelimit/LocalRateLimitProviderTest.java:29-42 | the first request for a key succeeds and reports capacity - 1 tokens left |
| RateLimiting.SecondImmediateRequestRefused | src/test/java/com/mingchico/cms/core/ratelimit/LocalRateLimitProviderTest.java:44-59 | with capacity one, an immediate second request is refused, reports no tokens and a one-minute wait |
| RateLimiting.CapacityFixedAtCreation | src/main/java/com/mingchico/cms/core/ratelimit/LocalRateLimitProvider.java:54 | once a key has a bucket, the capacity argument changes nothing |
| RateLimiting.WaitingAsToldSucceeds | src/main/java/com/mingchico/cms/core/ratelimit/LocalRateLimitProvider.java:63-64 | a request made the reported wait after a refusal is served |
| RateLimiting.LocalRateLimitProvider.TryConsume | src/main/java/com/mingchico/cms/core/ratelimit/LocalRateLimitProvider.java:51-55 | the probe and the new bucket map are those the bucket specification gives, and every bucket stays well formed |
| RateLimitFiltering.RateAdmissionAsWritten | src/main/java/com/mingchico/cms/core/ratelimit/GlobalRateLimitFilter.java:123-138 | the filter as written: after a consumed token a downstream exception is caught by the fail-open handler and the chain runs again; the bucket map stays well formed; stated by DownstreamFailureRerunsChain |
| RateLimitFiltering.RateAdmission | src/main/java/com/mingchico/cms/core/ratelimit/GlobalRateLimitFilter.java:95-139 | the filter with only the provider call failing open: exempt requests pass, an address failure escapes, a provider failure passes, a token sets X-Rate-Limit-Remaining and passes, a refusal answers 429 with Retry-After; the bucket map stays well formed; stated by ChainRunsAtMostOnce and the lemmas below |
| RateLimitFiltering.DownstreamFailureRerunsChain | src/main/java/com/mingchico/cms/core/ratelimit/GlobalRateLimitFilter.java:123-138 | as written, a chain that throws after a consumed token runs twice; with the guard around the provider alone it runs once |
| RateLimitFiltering.ChainRunsAtMostOnce | src/main/java/com/mingchico/cms/core/ratelimit/GlobalRateLimitFilter.java:123-138 | the corrected filter runs the chain at most once, and skips it only on a refusal or a failed address extraction |
| RateLimitFiltering.ExemptRequestBypasses | src/main/java/com/mingchico/cms/core/ratelimit/GlobalRateLimitFilter.java:100-103 | an exempt request goes down the chain with no header set and no bucket touched |
| RateLimitFiltering.FirstRequestUsesSiteCapacity | src/test/java/com/mingchico/cms/core/ratelimit/GlobalRateLimitFilterTest.java:63-107 | a client's first request creates its bucket with the site's capacity, the override when one is configured, and reports capacity - 1 remaining |
| RateLimitFiltering.RefusalAnswersTooManyRequests | src/main/java/com/mingchico/cms/core/ratelimit/GlobalRateLimitFilter.java:130-134 | a refusal answers 429 with a Retry-After of at least one second and does not run the chain |
| RateLimitFiltering.OtherSitesUnaffected | src/main/java/com/mingchico/cms/core/ratelimit/GlobalRateLimitFilter.java:114-125 | a request never changes a bucket of another site whose code has no colon |
| RateLimitFiltering.GlobalRateLimitFilter.DoFilterInternal | src/main/java/com/mingchico/cms/core/ratelimit/GlobalRateLimitFilter.java:95-139 | the outcome and the new buckets are those of the corrected admission function, with the site code bound by the tenant filter |
| CorrelationLogging.IdChars | src/main/java/com/mingchico/cms/core/mdc/MdcLoggingFilter.java:42 | true exactly when every character is an ASCII letter, a digit or a hyphen |
| CorrelationLogging.ResolveCorrelationId | src/main/java/com/mingchico/cms/core/mdc/MdcLoggingFilter.java:76-86 | the caller's header is kept exactly when it is present and matches the id pattern; anything else is replaced by the fresh UUID |
| CorrelationLogging.ResolvedIdWellFormed | src/main/java/com/mingchico/cms/core/mdc/MdcLoggingFilter.java:42-85 | whichever branch is taken, the id in use matches the pattern, since a UUID's text does |
| CorrelationLogging.MalformedHeaderReplaced | src/main/java/com/mingchico/cms/core/mdc/MdcLoggingFilter.java:39-42 | an empty header, one over 50 characters, or one with any other character is never used |
| CorrelationLogging.MdcLoggingFilter.DoFilterInternal | src/main/java/com/mingchico/cms/core/mdc/MdcLoggingFilter.java:44-68 | the chain sees the resolved id in the logging context, the response header is set to that id, the key is removed on every exit, and other logging keys are untouched |
| CorrelationLogging.EchoMatchesLogs | src/main/java/com/mingchico/cms/core/mdc/MdcLoggingFilter.java:50-61 | the id echoed to the client is the one the chain logged under, and it is well formed |
| AsyncPropagation.Capture | src/main/java/com/mingchico/cms/core/config/AsyncConfig.java:62-66 | the decorated runnable carries no logging copy exactly when the parent's logging context is empty, otherwise a copy of it, and the parent's tenant as it is at decoration |
| AsyncPropagation.Restored | src/main/java/com/mingchico/cms/core/config/AsyncConfig.java:72-80 | each copy replaces the child's own context, and a missing copy leaves it as it was; a tenant copy also sets the site code |
| AsyncPropagation.FreshChildSeesParent | src/test/java/com/mingchico/cms/core/config/AsyncConfigTest.java:39-57 | on a fresh child thread the decorated runnable sees exactly the parent's logging entries, site code and tenant of decoration time |
| AsyncPropagation.Decorate | src/main/java/com/mingchico/cms/core/config/AsyncConfig.java:59-67 | the copies taken are the parent's contexts at decoration, and nothing is changed |
| AsyncPropagation.Run | src/main/java/com/mingchico/cms/core/config/AsyncConfig.java:68-88 | the body sees the restored contexts, its exception propagates, and both child contexts are empty afterwards whether or not it threw |
| AsyncPropagation.SubmitThenChangeParent | src/main/java/com/mingchico/cms/core/config/AsyncConfig.java:59-88 | a change the parent makes after submitting does not reach the decorated runnable, and the parent keeps its own change |
| MessageStore.I18nMessageRepository.FindByCodeAndLocale | src/main/java/com/mingchico/cms/core/context/i18n/I18nMessageRepository.java:7 | the stored message of the pair when there is one, none otherwise; the lookup is counted and the table is unchanged |
| MessageStore.I18nMessageRepository.Save | src/main/java/com/mingchico/cms/core/context/i18n/I18nMessage.java:18-19 | a pair not yet stored gains its message, so the table grows by exactly one pair |
| MessageStore.I18nMessageRepository.ExistsByCodeAndLocale | src/main/java/com/mingchico/cms/core/context/i18n/I18nMessageRepository.java:8 | the (code, language tag) pair is stored; the synchronisation inserts exactly the bundle keys for which it fails (SyncKeysCovers, SyncKeysNoop) |
| MessageResolution.CacheKey | src/main/java/com/mingchico/cms/core/context/i18n/DatabaseMessageSource.java:54 | the key is the code, a vertical-bar separator and the language tag, each recoverable from its position |
| MessageResolution.CacheKeyInjective | src/main/java/com/mingchico/cms/core/context/i18n/DatabaseMessageSource.java:30-31 | two pairs share a cache key only when they are the same pair, even when a code contains the separator |
| MessageResolution.Interpret | src/main/java/com/mingchico/cms/core/context/i18n/DatabaseMessageSource.java:72-77 | none exactly for the marker; any other cached text becomes a formatter of that text for the locale |
| MessageResolution.DatabaseMessageSource.ResolveCode | src/main/java/com/mingchico/cms/core/context/i18n/DatabaseMessageSource.java:52-78 | a hit answers from the cache without consulting the table; a miss consults the table once and caches the stored message or the marker; the marker answers none so the next source is asked |
| MessageResolution.DatabaseMessageSource.ClearCache | src/main/java/com/mingchico/cms/core/context/i18n/DatabaseMessageSource.java:83-90 | exactly that pair's cache entry is removed |
| MessageResolution.Create | src/main/java/com/mingchico/cms/core/context/i18n/DatabaseMessageSource.java:36-45 | the source is built with the configured cache exactly when the "i18n_messages" cache exists; otherwise the fail-fast error with its message |
| MessageResolution.EvictionKeepsOtherPairs | src/main/java/com/mingchico/cms/core/context/i18n/DatabaseMessageSource.java:83-90 | clearing one pair leaves every other pair's entry in place |
| MessageResolution.StoredMarkerReadsAsAbsent | src/main/java/com/mingchico/cms/core/context/i18n/DatabaseMessageSource.java:27-28 | a stored message whose text equals the marker is answered as absent, like a missing message |
| MessageSync.SyncKeys | src/main/java/com/mingchico/cms/core/context/i18n/MessageDataInitializer.java:49-55 | the table after the inner loop: each bundle key absent for the tag is inserted with its message; stated by SyncKeysKeeps, SyncKeysCovers, SyncKeysNoop and SyncKeysOnlyBundle |
| MessageSync.SyncKeysKeeps | src/main/java/com/mingchico/cms/core/context/i18n/MessageDataInitializer.java:49-54 | one bundle's pass never changes or removes a stored message |
| MessageSync.SyncKeysCovers | src/main/java/com/mingchico/cms/core/context/i18n/MessageDataInitializer.java:45-54 | after one bundle's pass every key of the bundle is stored for its locale |
| MessageSync.SyncKeysNoop | src/main/java/com/mingchico/cms/core/context/i18n/MessageDataInitializer.java:51 | a pass over a bundle whose keys are all stored changes nothing |
| MessageSync.SyncKeysOnlyBundle | src/main/java/com/mingchico/cms/core/context/i18n/MessageDataInitializer.java:51-52 | every pair a pass adds is a key of that bundle under that bundle's locale |
| MessageSync.SyncAll | src/main/java/com/mingchico/cms/core/context/i18n/MessageDataInitializer.java:39-60 | the table after the outer loop over the locales, a locale without a bundle skipped; stated by SyncAllKeeps, SyncAllCovers, SyncAllNoop and SecondRunInsertsNothing |
| MessageSync.SyncAllKeeps | src/main/java/com/mingchico/cms/core/context/i18n/MessageDataInitializer.java:39-60 | the whole synchronisation never overwrites or removes a stored message |
| MessageSync.SyncAllCovers | src/test/java/com/mingchico/cms/core/context/i18n/I18nDataSyncTest.java:28-55 | after synchronisation every key of every target locale that has a bundle is stored |
| MessageSync.SyncAllNoop | src/main/java/com/mingchico/cms/core/context/i18n/MessageDataInitializer.java:62-66 | when every bundle key is already stored, synchronisation changes nothing |
| MessageSync.SecondRunInsertsNothing | src/main/java/com/mingchico/cms/core/context/i18n/MessageDataInitializer.java:49-54 | synchronising twice gives the same table as synchronising once |
| MessageSync.EditedMessageSurvives | src/test/java/com/mingchico/cms/core/context/i18n/I18nDataSyncTest.java:57-77 | a message already in the table, edited by an administrator, keeps its text through synchronisation |
| MessageSync.MessageDataInitializer.SyncLocale | src/main/java/com/mingchico/cms/core/context/i18n/MessageDataInitializer.java:45-55 | the table becomes the one-locale synchronised table, which gains each absent pair of the bundle and keeps every stored one; the count is the number of pairs gained |
| MessageSync.MessageDataInitializer.Run | src/main/java/com/mingchico/cms/core/context/i18n/MessageDataInitializer.java:35-67 | the table becomes the synchronised table over Korean, English, Japanese and Chinese, skipping a locale without a bundle, and the count is the number of pairs added |
| ThemeCatalog.AnyHasCode | src/main/java/com/mingchico/cms/core/theme/ThemeProperties.java:27-28 | true exactly when some catalogue entry has this code |
| ThemeCatalog.IsValidTheme | src/main/java/com/mingchico/cms/core/theme/ThemeProperties.java:25-29 | a missing or blank code is never valid, even if the catalogue lists one; any other code is valid exactly when some entry has it |
| ThemeResources.MemoKey | src/main/java/com/mingchico/cms/core/theme/ThemeResourceResolver.java:43 | the key is the theme name, a colon and the view name, each recoverable from its position |
| ThemeResources.MemoKeyInjective | src/main/java/com/mingchico/cms/core/theme/ThemeResourceResolver.java:29-43 | for theme names without a colon, two (theme, view) pairs share a memo key only when they are the same pair |
| ThemeResources.SeparatorInThemeCollides | src/main/java/com/mingchico/cms/core/theme/ThemeResourceResolver.java:43-47 | with a colon in the theme name two different templates share one memo entry |
| ThemeResources.ThemeResourceResolver.constructor | src/main/java/com/mingchico/cms/core/theme/ThemeResourceResolver.java:30-33 | the memo starts empty and the loader has not been asked |
| ThemeResources.ThemeResourceResolver.CheckThemeResourceExists | src/main/java/com/mingchico/cms/core/theme/ThemeResourceResolver.java:42-56 | a remembered answer is returned without asking the loader; otherwise the loader is asked once for the theme's template path and its answer, true or false, is remembered |
| ThemeResources.ThemeResourceResolver.CheckFaithfully | src/test/java/com/mingchico/cms/core/theme/ThemeResourceResolverTest.java:37-83 | for a plain theme name and a memo that agrees with the loader, the answer is the loader's and the memo still agrees |
| ThemeResources.ThemeResourceResolver.CheckTwice | src/main/java/com/mingchico/cms/core/theme/ThemeResourceResolver.java:45-55 | two checks of the same pair agree and ask the loader at most once |
| ThemeViews.ThemableName | src/main/java/com/mingchico/cms/core/theme/ThemeViewInterceptor.java:44-50 | a view name is themable exactly when the view is a name that starts with neither "redirect:" nor "forward:" |
| ThemeViews.ThemeViewInterceptor.PostHandle | src/main/java/com/mingchico/cms/core/theme/ThemeViewInterceptor.java:38-79 | nothing changes without a model-and-view, a themable name or a tenant; otherwise the view becomes "themes/{theme}/{view}" when the theme's template exists and stays as it was when not, and the model's "currentTheme" is the theme name; the resolver's memo then holds the answer for that (theme, view) pair and is otherwise unchanged |
| ThemeViews.ThemedViewIsPlainName | src/test/java/com/mingchico/cms/core/theme/ThemeViewInterceptorTest.java:53-70 | a themed view name starts with "themes/" and is itself a themable name |
| XssSanitizing.FirstMatch | src/main/java/com/mingchico/cms/core/xss/XssRequestWrapper.java:43-46 | the position of the first rule whose pattern matches the path: no earlier rule matches, and the length of the list when none does |
| XssSanitizing.MatchedRule | src/main/java/com/mingchico/cms/core/xss/XssRequestWrapper.java:43-46 | none exactly when no rule's pattern matches the path; otherwise a rule of the list whose pattern matches |
| XssSanitizing.FirstApplyingRuleUnique | src/main/java/com/mingchico/cms/core/xss/XssRequestWrapper.java:43-45 | the first applying rule is unique, so it alone decides |
| XssSanitizing.AllowedByMatchedRule | src/main/java/com/mingchico/cms/core/xss/XssRequestWrapper.java:43-49 | a value is kept raw exactly when the first matching rule exists and lists the name among its allowed parameters |
| XssSanitizing.CleanXss | src/main/java/com/mingchico/cms/core/xss/XssRequestWrapper.java:39-55 | null stays null; a value the first matching rule allows is kept as it is; every other value is sanitised |
| XssSanitizing.NoRuleSanitisesAll | src/main/java/com/mingchico/cms/core/xss/XssRequestWrapper.java:48-51 | on a path no rule matches, every value is sanitised |
| XssSanitizing.FirstRuleDecides | src/main/java/com/mingchico/cms/core/xss/XssRequestWrapper.java:43-51 | a first matching rule that does not allow the name decides, even when a later matching rule would allow it |
| XssSanitizing.IgnoreFlagHasNoEffect | src/main/java/com/mingchico/cms/core/xss/XssRequestWrapper.java:39-55 | rule lists that differ only in their ignore flags treat every value the same |
| XssSanitizing.XssRequestWrapper.Cleaned | src/main/java/com/mingchico/cms/core/xss/XssRequestWrapper.java:49-54 | a value under an allowed name is returned as it is, and sanitised otherwise |
| XssSanitizing.XssRequestWrapper.GetParameter | src/main/java/com/mingchico/cms/core/xss/XssRequestWrapper.java:57-61 | a value exactly when the underlying request has one for the name, and then its first value cleaned |
| XssSanitizing.XssRequestWrapper.GetHeader | src/main/java/com/mingchico/cms/core/xss/XssRequestWrapper.java:97-101 | a value exactly when the header is present, cleaned under the header's own name |
| XssSanitizing.XssRequestWrapper.CleanValues | src/main/java/com/mingchico/cms/core/xss/XssRequestWrapper.java:70-73 | a new array as long as the values, each element the value at its position cleaned |
| XssSanitizing.XssRequestWrapper.GetParameterValues | src/main/java/com/mingchico/cms/core/xss/XssRequestWrapper.java:63-75 | null exactly when the underlying request has none for the name; otherwise as many values, each cleaned, in order |
| XssSanitizing.XssRequestWrapper.GetParameterMap | src/main/java/com/mingchico/cms/core/xss/XssRequestWrapper.java:77-95 | a name whose value array is null is dropped, and every other name maps to its values, each cleaned |
| XssSanitizing.MapAgreesWithValues | src/main/java/com/mingchico/cms/core/xss/XssRequestWrapper.java:57-95 | the parameter map holds a name exactly when getParameterValues does, and its first element is what getParameter returns |
| XssSanitizing.AllowedHeaderPassesRaw | src/main/java/com/mingchico/cms/core/xss/XssRequestWrapper.java:97-101 | a header listed in the matching rule's allowed parameters reaches the handler raw |
| XssFiltering.DoFilterInternal | src/main/java/com/mingchico/cms/core/xss/XssProtectionFilter.java:44-79 | the original request goes down the chain exactly for a GET in any letter case or a content type containing "application/json"; every other request goes down wrapped, matched against its URI |
| XssFiltering.SeenParameter | src/main/java/com/mingchico/cms/core/xss/XssProtectionFilter.java:57-78 | the handler reads the raw value through the original request, and the cleaned value through the wrapper |
| XssFiltering.LowerCaseGetKeepsRaw | src/test/java/com/mingchico/cms/core/xss/XssIntegrationTest.java:67-77 | a GET, in any letter case, keeps its query parameters raw |
| XssFiltering.FormPostSanitised | src/test/java/com/mingchico/cms/core/xss/XssIntegrationTest.java:79-89 | a form POST on a path no rule matches has its parameters sanitised |
| XssFiltering.UntypedPostWrapped | src/main/java/com/mingchico/cms/core/xss/XssProtectionFilter.java:50-78 | a POST without a content type is wrapped |
| XssFiltering.JsonWithCharsetSkips | src/test/java/com/mingchico/cms/core/xss/XssIntegrationTest.java:91-109 | a JSON body with a charset parameter is not wrapped, leaving it to the JSON deserialiser |
| XssFiltering.UpperCaseJsonWrapped | src/main/java/com/mingchico/cms/core/xss/XssProtectionFilter.java:66 | the media-type test is case-sensitive, so an upper-case JSON type on a POST is wrapped |
| Profiles.FirstMissing | src/main/java/com/mingchico/cms/core/user/domain/UserProfile.java:103-109 | the position of the first required key that is absent or null, every earlier key being present; the length of the list when none is missing |
| Profiles.Assigned | src/main/java/com/mingchico/cms/core/user/domain/UserProfile.java:81-87 | a null value removes the key, any other value maps it, and every other key is unchanged |
| Profiles.AssignedKeepsNoNulls | src/main/java/com/mingchico/cms/core/user/domain/UserProfile.java:81-87 | setting an attribute never stores a null |
| Profiles.AssignedSatisfiesKey | src/main/java/com/mingchico/cms/core/user/domain/UserProfile.java:81-109 | setting the one missing required key to a value makes validation pass |
| Profiles.ClearedKeyFails | src/main/java/com/mingchico/cms/core/user/domain/UserProfile.java:82-83 | clearing a required key makes validation fail at that key or an earlier one |
| Profiles.FirstMissingIs | src/main/java/com/mingchico/cms/core/user/domain/UserProfile.java:104-106 | a missing key preceded only by present keys is the first missing key |
| Profiles.UserProfile.constructor | src/main/java/com/mingchico/cms/core/user/domain/UserProfile.java:64-70 | the builder sets the standard fields as given, with no user and no attributes |
| Profiles.UserProfile.AssignUser | src/main/java/com/mingchico/cms/core/user/domain/UserProfile.java:72-74 | the profile is linked to the user, and nothing else changes |
| Profiles.UserProfile.SetAttribute | src/main/java/com/mingchico/cms/core/user/domain/UserProfile.java:81-87 | the attributes become the assigned map, no null is ever introduced, and the standard fields are unchanged |
| Profiles.UserProfile.GetAttribute | src/main/java/com/mingchico/cms/core/user/domain/UserProfile.java:92-94 | a value exactly when the key is mapped to a non-null value, and then that value |
| Profiles.UserProfile.ValidateRequiredAttributes | src/main/java/com/mingchico/cms/core/user/domain/UserProfile.java:103-109 | passes exactly when every required key is present and not null; otherwise fails with the message naming the first missing key, in list order |
| MenuDomain.TargetOrSelf | src/main/java/com/mingchico/cms/core/menu/domain/Menu.java:148 | the given link target, or _SELF when none is given |
| MenuDomain.RolesOr | src/main/java/com/mingchico/cms/core/menu/domain/Menu.java:154-155 | the given role list when it has text, otherwise the fallback |
| MenuDomain.ConfigOrDefault | src/main/java/com/mingchico/cms/core/menu/domain/Menu.java:156 | the given config, or a default config when none is given |
| MenuDomain.TrimAll | src/main/java/com/mingchico/cms/core/menu/domain/Menu.java:176 | as many pieces as given, each trimmed |
| MenuDomain.Distinct | src/main/java/com/mingchico/cms/core/menu/domain/Menu.java:177 | the same names with every repeat dropped |
| MenuDomain.RoleList | src/main/java/com/mingchico/cms/core/menu/domain/Menu.java:173-178 | the role names of a list, without repeats |
| MenuDomain.RoleSet | src/main/java/com/mingchico/cms/core/menu/domain/Menu.java:173-178 | nothing for a list without text; otherwise exactly the trimmed pieces of the list split on commas |
| MenuDomain.SingleRoleList | src/main/java/com/mingchico/cms/core/menu/domain/Menu.java:173-178 | a single role name without commas, without characters trim removes at either end and not starting with whitespace is read as exactly that role |
| MenuDomain.DefaultRoleSets | src/main/java/com/mingchico/cms/core/menu/domain/Menu.java:154-155 | the default read roles are exactly ANONYMOUS and the default write roles exactly ROLE_ADMIN |
| MenuDomain.RolesOrDefault | src/main/java/com/mingchico/cms/core/menu/domain/Menu.java:154-155 | a role list taken with a fallback always has text; it names no role only when it is commas alone, and without text of its own it is exactly the fallback role |
| MenuDomain.BuiltDefaults | src/main/java/com/mingchico/cms/core/menu/domain/Menu.java:138-157 | a built menu always has a target and a config; without read roles anyone may read it, and without write roles only ROLE_ADMIN may write |
| MenuDomain.PresentHasRole | src/main/java/com/mingchico/cms/core/menu/domain/Menu.java:174-175 | a role list with text names some role exactly when it holds a character other than a comma |
| MenuDomain.ReadRoleSet | src/main/java/com/mingchico/cms/core/menu/domain/Menu.java:165-167 | the parsed read roles; RoleSet's contract states which names they hold, and DefaultRoleSets and OnlyAnonymousReading use it |
| MenuDomain.WriteRoleSet | src/main/java/com/mingchico/cms/core/menu/domain/Menu.java:169-171 | the parsed write roles; RoleSet's contract states which names they hold |
| MenuDomain.IsAuthorized | src/main/java/com/mingchico/cms/core/menu/domain/Menu.java:132-136 | holds exactly for the "READ" action on a menu whose read roles contain "ANONYMOUS"; stated by OnlyAnonymousReading |
| MenuDomain.OnlyAnonymousReading | src/main/java/com/mingchico/cms/core/menu/domain/Menu.java:132-136 | only READ is ever authorised, and exactly when the read roles include ANONYMOUS |
| MenuDomain.Menu.Build | src/main/java/com/mingchico/cms/core/menu/domain/Menu.java:138-157 | the new entity's fields are the builder's record, with the defaults for target, roles and config |
| MenuDomain.Menu.Load | src/main/java/com/mingchico/cms/core/menu/domain/Menu.java:40-127 | an entity loaded from a row holds exactly that row |
| MenuDomain.Menu.UpdateInfo | src/main/java/com/mingchico/cms/core/menu/domain/Menu.java:182-194 | the nine presentation and routing fields take the given values; the frame names only those nine, so the id, site, parent, roles and config are unchanged |
| MenuDomain.Menu.UpdateAcl | src/main/java/com/mingchico/cms/core/menu/domain/Menu.java:196-199 | the role lists become the raw strings given, with no defaulting, so a list without text then grants no role |
| MenuDomain.Menu.UpdateConfig | src/main/java/com/mingchico/cms/core/menu/domain/Menu.java:201-203 | the config becomes the one given, possibly none, and nothing else changes |
| MenuResolution.OrderIsTotal | src/main/java/com/mingchico/cms/core/menu/repository/MenuRepository.java:16 | the repository order (parent id with a missing parent first, then display order) relates any two menus and is transitive |
| MenuResolution.Insert | src/main/java/com/mingchico/cms/core/menu/repository/MenuRepository.java:16 | inserting a menu adds exactly that menu to the collection |
| MenuResolution.InsertSorted | src/main/java/com/mingchico/cms/core/menu/repository/MenuRepository.java:16 | inserting into an ordered list keeps it ordered |
| MenuResolution.SortByParentAndOrder | src/main/java/com/mingchico/cms/core/menu/repository/MenuRepository.java:16 | the sorted list is a permutation of the input |
| MenuResolution.SortSorted | src/main/java/com/mingchico/cms/core/menu/repository/MenuRepository.java:16 | the sorted list is in the repository order |
| MenuResolution.OfSite | src/main/java/com/mingchico/cms/core/menu/repository/MenuRepository.java:16 | exactly the menus of the site, each at most as often as stored |
| MenuResolution.FindAllBySiteCodeOrdered | src/main/java/com/mingchico/cms/core/menu/repository/MenuRepository.java:16 | exactly the site's menus, a permutation of them, in the repository order |
| MenuResolution.Resolve | src/main/java/com/mingchico/cms/core/menu/service/MenuResolver.java:45-49 | a result is one of the menus and its pattern matches the URI |
| MenuResolution.ResolveNoneIff | src/main/java/com/mingchico/cms/core/menu/service/MenuResolver.java:45-49 | there is no result exactly when no pattern matches the URI |
| MenuResolution.ResolveLongest | src/main/java/com/mingchico/cms/core/menu/service/MenuResolver.java:48-49 | no matching menu has a longer pattern than the result |
| MenuResolution.ResolveEarliest | src/main/java/com/mingchico/cms/core/menu/service/MenuResolver.java:49 | the result is the earliest of the longest matching patterns, as Stream.max keeps the first of equal elements |
| MenuResolution.ResolveForSite | src/main/java/com/mingchico/cms/core/menu/service/MenuResolver.java:42-64 | the result is one of the site's menus and matches; none exactly when no menu of the site matches; no matching menu of the site has a longer pattern |
| MenuResolution.OtherSitesIgnored | src/main/java/com/mingchico/cms/core/menu/service/MenuResolver.java:60-64 | menus of other sites never change the outcome |
| MenuResolution.UnderPrefix | src/main/java/com/mingchico/cms/core/menu/service/MenuResolver.java:47 | a URI is under "/a/b/**" exactly when its literal segments begin with a and b |
| MenuResolution.ResolvePair | src/main/java/com/mingchico/cms/core/menu/service/MenuResolver.java:45-49 | of two matching menus the longer pattern wins and the first on a tie; a single match wins alone |
| MenuResolution.BoardPatternsOnNotice | src/test/java/com/mingchico/cms/core/menu/MenuSystemIntegrationTest.java:129-136 | both "/board/**" and "/board/notice/**" match "/board/notice/1" |
| MenuResolution.BoardPatternsOnFree | src/test/java/com/mingchico/cms/core/menu/MenuSystemIntegrationTest.java:138-145 | "/board/**" matches "/board/free/1" and "/board/notice/**" does not |
| MenuResolution.NotUnderOtherPrefix | src/main/java/com/mingchico/cms/core/menu/service/MenuResolver.java:47 | a path whose second segment differs is not under that prefix |
| MenuResolution.BoardScenario | src/test/java/com/mingchico/cms/core/menu/MenuSystemIntegrationTest.java:129-145 | in either order, a notice URI resolves to the notice board and any other board URI to the board home |
| MenuStore.IndexOfId | src/main/java/com/mingchico/cms/core/menu/repository/MenuRepository.java:8 | a position whose row has the id, or none exactly when no row has it |
| MenuStore.Ids | src/main/java/com/mingchico/cms/core/menu/repository/MenuRepository.java:8 | exactly the ids some row carries |
| MenuStore.ParentOf | src/main/java/com/mingchico/cms/core/menu/domain/Menu.java:109-112 | a parent is found only for an id some row carries |
| MenuStore.ClosedHoldsDescendants | src/main/java/com/mingchico/cms/core/menu/domain/Menu.java:114-117 | a set that holds the root and every child of its members holds every descendant of the root |
| MenuStore.SubtreeIsDescendants | src/main/java/com/mingchico/cms/core/menu/domain/Menu.java:114-117 | a subtree of a menu holds exactly the menu and its descendants |
| MenuStore.Without | src/main/java/com/mingchico/cms/core/menu/domain/Menu.java:114-117 | the rows kept are exactly the old rows whose id was not removed, and there are no more of them |
| MenuStore.WithoutKeepsValid | src/main/java/com/mingchico/cms/core/menu/domain/Menu.java:114-117 | removing rows keeps ids unique and below the next id |
| MenuStore.AddChild | src/main/java/com/mingchico/cms/core/menu/domain/Menu.java:114-117 | a child of a collected menu descends from the root as well, and adding it leaves fewer ids to visit |
| MenuStore.NoChildLeft | src/main/java/com/mingchico/cms/core/menu/domain/Menu.java:114-117 | once no child lies outside the collected set, the set is the whole subtree |
| MenuStore.Children | src/main/java/com/mingchico/cms/core/menu/domain/Menu.java:114-117 | exactly the stored menus outside the set whose parent is in it |
| MenuStore.MenuRepository.constructor | src/main/java/com/mingchico/cms/core/menu/repository/MenuRepository.java:8 | the table starts empty, with the first id 1 |
| MenuStore.MenuRepository.FindById | src/main/java/com/mingchico/cms/core/menu/repository/MenuRepository.java:8 | a row exactly when some row has the id, and then a stored row with that id |
| MenuStore.MenuRepository.Insert | src/main/java/com/mingchico/cms/core/menu/repository/MenuRepository.java:8 | a new menu is appended under a fresh id, which the saved copy carries, and ids stay unique |
| MenuStore.MenuRepository.Store | src/main/java/com/mingchico/cms/core/menu/repository/MenuRepository.java:8 | only the row at the stored position changes, to the entity, and ids stay unique |
| MenuStore.MenuRepository.SubtreeOf | src/main/java/com/mingchico/cms/core/menu/domain/Menu.java:114-117 | the ids found are a subtree of the stored menus rooted at the menu: it and exactly its descendants |
| MenuStore.MenuRepository.Delete | src/main/java/com/mingchico/cms/core/menu/domain/Menu.java:114-117 | the rows left are the old rows without the menu's subtree, and ids stay unique |
| MenuTransfer.From | src/main/java/com/mingchico/cms/core/menu/dto/MenuDto.java:72-92 | every scalar field is copied; the role lists hold each role of the entity's role sets exactly once; a missing config becomes the default config; there is one child response per child |
| MenuTransfer.FromAll | src/main/java/com/mingchico/cms/core/menu/dto/MenuDto.java:88-90 | one response per node, in order |
| MenuTransfer.FromKeepsTree | src/main/java/com/mingchico/cms/core/menu/dto/MenuDto.java:72-92 | the responses list the same menus as the entity tree, in the same depth-first order |
| MenuTransfer.CountIsIds | src/main/java/com/mingchico/cms/core/menu/dto/MenuDto.java:88-90 | the response tree has as many menus as the entity tree |
| MenuAdministration.EditKeepsPlacement | src/main/java/com/mingchico/cms/core/menu/service/MenuAdminService.java:72-99 | an update keeps the menu's id, site and parent, whatever site the request names, and takes every other field from the request |
| MenuAdministration.BlankReadRolesOnCreateAndUpdate | src/main/java/com/mingchico/cms/core/menu/service/MenuAdminService.java:44-96 | without read roles in the request a created menu is readable by ANONYMOUS, while an updated one has no read role at all |
| MenuAdministration.SiteRoots | src/main/java/com/mingchico/cms/core/menu/service/MenuAdminService.java:35 | exactly the loaded menus of that site that have no parent |
| MenuAdministration.InsertByOrder | src/main/java/com/mingchico/cms/core/menu/service/MenuAdminService.java:35 | the result holds the same menus as before, plus the inserted one |
| MenuAdministration.InsertByOrderSorted | src/main/java/com/mingchico/cms/core/menu/service/MenuAdminService.java:35 | inserting into a list in display order keeps it in display order |
| MenuAdministration.SortByDisplayOrder | src/main/java/com/mingchico/cms/core/menu/service/MenuAdminService.java:35 | the result holds the same menus as the input |
| MenuAdministration.SortByDisplayOrderSorted | src/main/java/com/mingchico/cms/core/menu/service/MenuAdminService.java:35 | the result is in ascending display order |
| MenuAdministration.SortedRoots | src/main/java/com/mingchico/cms/core/menu/service/MenuAdminService.java:35 | the sorted roots are as many as the site's roots, are all roots of that site, and are in display order |
| MenuAdministration.MappedRoots | src/main/java/com/mingchico/cms/core/menu/service/MenuAdminService.java:37 | mapping a subset of the menus gives a subset of the mapped whole |
| MenuAdministration.GetMenuTree | src/main/java/com/mingchico/cms/core/menu/service/MenuAdminService.java:33-39 | one response per root menu of the site: the responses are, as a multiset, exactly the site's roots mapped, none has a parent, and they come in ascending display order |
| MenuAdministration.MenuAdminService.constructor | src/main/java/com/mingchico/cms/core/menu/service/MenuAdminService.java:26-28 | the service starts over the given repository with an empty menu_list cache |
| MenuAdministration.MenuAdminService.CreateMenu | src/main/java/com/mingchico/cms/core/menu/service/MenuAdminService.java:44-67 | the menu built from the request is appended under a fresh id, which is returned, and the request's site is evicted from the cache |
| MenuAdministration.MenuAdminService.UpdateMenu | src/main/java/com/mingchico/cms/core/menu/service/MenuAdminService.java:72-99 | an unknown id fails with the id in the message and changes nothing; otherwise only that menu changes, to the request's fields, and the request's site is evicted |
| MenuAdministration.MenuAdminService.DeleteMenu | src/main/java/com/mingchico/cms/core/menu/service/MenuAdminService.java:105-118 | an unknown id, or a menu of another site, fails and changes nothing; otherwise the menu and all its descendants are removed and the site is evicted |
| MenuAdministration.MenuAdminService.ReorderMenus | src/main/java/com/mingchico/cms/core/menu/service/MenuAdminService.java:123-134 | no menu changes, and the site is still evicted from the cache |
| MenuInterception.MenuContext.constructor | src/main/java/com/mingchico/cms/core/menu/MenuContext.java:21 | a thread starts with no menu bound |
| MenuInterception.MenuContext.Set | src/main/java/com/mingchico/cms/core/menu/MenuContext.java:23-28 | a menu is bound; null leaves the binding as it was |
| MenuInterception.MenuContext.GetCurrentMenu | src/main/java/com/mingchico/cms/core/menu/MenuContext.java:30-32 | the bound menu, and empty exactly when none is bound |
| MenuInterception.MenuContext.Clear | src/main/java/com/mingchico/cms/core/menu/MenuContext.java:34-36 | afterwards no menu is bound |
| MenuInterception.MenuResolutionInterceptor.constructor | src/main/java/com/mingchico/cms/core/menu/interceptor/MenuResolutionInterceptor.java:36 | the interceptor resolves against the given repository |
| MenuInterception.MenuResolutionInterceptor.PreHandle | src/main/java/com/mingchico/cms/core/menu/interceptor/MenuResolutionInterceptor.java:39-57 | the request always proceeds; without a site nothing is resolved; otherwise the site's resolved menu is both bound and the currentMenu attribute, and no match leaves the binding as it was |
| MenuInterception.AccessPreHandle | src/main/java/com/mingchico/cms/core/menu/interceptor/MenuAccessInterceptor.java:14-23 | 404 and stop exactly when a bound menu is not accessible |
| MenuInterception.AccessIgnoresRolesAndVisibility | src/main/java/com/mingchico/cms/core/menu/interceptor/MenuAccessInterceptor.java:18 | visibility and read roles never change the access decision, and no menu always proceeds |
| MenuInterception.HoldsOneOf | src/main/java/com/mingchico/cms/core/menu/interceptor/MenuAclInterceptor.java:34 | the caller has one of the roles in the sense of hasRole; AclPreHandle's contract uses it for the refusal |
| MenuInterception.AclPreHandle | src/main/java/com/mingchico/cms/core/menu/interceptor/MenuAclInterceptor.java:23-39 | passes exactly when no menu is bound, the read roles include ANONYMOUS, or the caller is authenticated and holds one of them; a refusal carries the access-denied message |
| MenuInterception.EmptyReadRolesDenyEveryone | src/main/java/com/mingchico/cms/core/menu/interceptor/MenuAclInterceptor.java:30-36 | a menu without any read role refuses every caller |
| MenuInterception.AnonymousMenuOpenToAll | src/main/java/com/mingchico/cms/core/menu/interceptor/MenuAclInterceptor.java:30 | a menu readable by ANONYMOUS lets every caller through |
| MenuInterception.AdminMenuAcl | src/test/java/com/mingchico/cms/core/menu/MenuSystemIntegrationTest.java:147-154 | the ROLE_ADMIN page refuses a caller without a member, or with a member lacking ROLE_ADMIN, and admits one holding it |
| MenuInterception.AclAfterCompletion | src/main/java/com/mingchico/cms/core/menu/interceptor/MenuAclInterceptor.java:42-45 | afterwards no menu is bound |
| MenuInterception.ChainAsWritten | src/main/java/com/mingchico/cms/core/menu/interceptor/MenuAclInterceptor.java:42-45 | the three interceptors as registered: a 404, a denial or an ACL-excluded path leaves the menu bound, and only a passed ACL check clears it; stated by StaleMenuAnswersNextRequest and StaleDenialAnswersNextRequest |
| MenuInterception.StaleMenuAnswersNextRequest | src/main/java/com/mingchico/cms/core/config/WebMvcConfig.java:31-34 | as registered, a 404 leaves the menu bound, and the next request that resolves no menu of its own is answered 404, which a fresh thread would not answer |
| MenuInterception.StaleDenialAnswersNextRequest | src/main/java/com/mingchico/cms/core/config/WebMvcConfig.java:31-34 | as registered, a refusal leaves the menu bound, and the next request that resolves no menu is refused by it, where a fresh thread would dispatch it |
| MenuInterception.Chain | src/main/java/com/mingchico/cms/core/config/WebMvcConfig.java:31-34 | the intended chain never leaves a menu bound |
| MenuInterception.ChainAlwaysClears | src/test/java/com/mingchico/cms/core/menu/MenuSystemIntegrationTest.java:156-172 | the intended chain decides like the registered one on a fresh thread, and a request's outcome never depends on the request before it |
| MenuInterception.ResolutionAfterCompletion | src/main/java/com/mingchico/cms/core/menu/interceptor/MenuAclInterceptor.java:42-45 | afterwards no menu is bound |
| MenuInterception.MenuPipeline.constructor | src/main/java/com/mingchico/cms/core/config/WebMvcConfig.java:31-34 | the pipeline runs over the given resolver and ACL exclusions |
| MenuInterception.MenuPipeline.Handle | src/main/java/com/mingchico/cms/core/config/WebMvcConfig.java:31-34 | one request through the chain gives the intended chain's outcome and attribute, and leaves the thread's binding as that chain says: empty |

## Left out

- Concurrency. The synchronized and scheduled rule refresh, the virtual-thread executor and `@Async` are not modelled. Per-thread cells (TenantContext, MenuContext, the logging context) are explicit objects, and "the next request on the same thread" is a second call on the same object.
- Transaction timing. The after-commit listener that refreshes the domain rules is modelled as a plain call made at the end of each administrative operation.
- Cache size and expiry policies (Caffeine `maximumSize`, `expireAfterAccess` and `expireAfterWrite`, and the cache TTL settings). Caches are unbounded maps. `DomainTenantResolver.Expire` models only "an entry may disappear".
- `RedisRateLimitProvider`. It is a network client. Its create-if-absent capacity rule is the one the local bucket map follows.
- Library internals are function parameters: the sanitiser (Jsoup `Safelist.none()`), the URL encoder, MessageFormat, `Locale.toLanguageTag`, UUID generation, BCrypt, the CIDR and address matcher for trusted proxies, the URI host parser and the template resource loader. AntPathMatcher is modelled only for literal, `*` and `**` patterns; `?`, `{var}` and trailing-separator quirks are not.
- XssJacksonDeserializer (JSON body sanitising) is not part of this model.
- Response bodies (the JSON written to the writer by the rate-limit and tenant filters, and by the entry point) are I/O. Only status, headers and whether the chain ran are modelled.
- Framework wiring (security filter chains, CSRF, security headers, cache and i18n configuration) is declarative Spring configuration. The interceptor registration order and exclusions are the only parts used.
- Spring's concurrent-session strategy. Its logic is modelled from the behaviour the strategy's tests show (oldest sessions expired, the new login never refused).
- `SessionControl.ExpiryCount`: a configured limit of 0, or a negative limit other than -1, gives an error outcome, standing for the index error of Spring's `subList`. `SessionControl.MaximumSessions` passes such values on untouched, as the source does.
- `JavaStrings.ToLower`, `JavaStrings.EqualsIgnoreCase` (and through them host lower-casing, the OPTIONS, GET and "unknown" tests, and the server-name comparison of the redirect check) fold only ASCII letters. Java's `toLowerCase` and `equalsIgnoreCase` fold all of Unicode: non-ASCII letters in hosts or role names lower-case differently, and characters such as U+212A (Kelvin sign) or U+017F (long s) compare equal to ASCII letters in Java but not in the model.
- `SecurityPrincipal.StringHash` folds over Unicode scalar values. Java's `String.hashCode` folds over UTF-16 code units, so `SecurityPrincipal.Hash` differs from Java's for e-mails or site codes with characters outside the Basic Multilingual Plane.
- `AsyncPropagation.Capture`: an empty logging context is copied as null. Logback returns an empty map once a key has been put and removed; the two differ only when the child thread already holds logging entries, which the decorated runnable's own finally block never leaves behind.
- Header names are compared case-sensitively in the request record, where the servlet API compares them ignoring case.
- ContextHolder's locale, language and time-zone getters only delegate to Spring's locale holder, so they are not part of this model.
- `DiagnosticContext` stands in for SLF4J's MDC: a string-to-string map with put, get, remove, copy and clear.
- `AsyncPropagation` models capture, restore and clear over two explicit context records. No thread is created.
- UserProfile's standard fields (real name, nickname, phone, e-mail) carry no logic beyond being stored.
- JPA entities are datatypes, and repositories are ordered sequences of rows. Lazy loading, `@BatchSize` and the auditing timestamps are not modelled.
- `Profiles.UserProfile` and the other entities have no JPA identity or versioning.
- `MenuDomain` ignores the `accessPolicy` field and `isAuthorized`'s user argument, which the source does not read.
- `MenuDomain.RoleList`: the returned role list holds the distinct roles in first-occurrence order. The source collects a hash set, whose iteration order Java leaves open, so only the membership is promised.
- `MenuResolution.SortByParentAndOrder`: a menu without a parent sorts before every menu with one, as H2 (the database the application is configured with, see the `/h2-console/**` exclusion) orders NULL first in an ascending sort. PostgreSQL sorts NULL last by default, so there root menus would come after child menus, and `Resolve`, which breaks ties between equal-length patterns by list position, could then pick a child menu where the model picks the root. Menus with the same parent and display order keep their store order (the sort is stable); the database promises no order among them, and `Resolve`'s tie-break between equal-length patterns depends on it.
- `MenuDomain` treats displayOrder as an unbounded integer, not a Java `int`.
- `MenuAdministration.GetMenuTree` takes the loaded entity forest, children included, as its input. The children association is the input, not something the model loads.
- `MenuAdministration.MenuAdminService.UpdateMenu` is modelled as written: it does no site check and evicts the request's site, not the stored menu's. Because menu resolution never reads the `menu_list` cache (the self-call at MenuResolver.java:43 bypasses the proxy), neither has an observable effect, so neither is a finding.
- The `findAllBySiteCodeAndVisibleTrue...` navigation query has no caller in the modelled code and is not modelled. The root query is modelled by `MenuAdministration.SiteRoots` and the display-order sort.
- `ThemeResources.MemoKey`: the ":" separator makes the memo key ambiguous when a theme name holds ":" (`SeparatorInThemeCollides`). The faithfulness proof therefore assumes theme names without ":".
- `RateLimiting`: the clock is an integer number of milliseconds, and refill is exact in 1/60000-token units. bucket4j's nanosecond greedy refill is not modelled. A capacity of 0 or less is an error at bucket creation, and the filter then fails open.
- `RateLimiting.LocalRateLimitProvider.TryConsume` takes (key, capacity), as the filter and its test call it, rather than the interface's one-argument form.
- The rate-limit exclusion lists, extension lists, trusted proxies and per-tenant capacities are fields of a configuration record.
- `XssSanitizing.XssRequestWrapper.GetParameterMap` never meets a null parameter map, because the model's map is always present. LinkedHashMap order and unmodifiability are not modelled, and `GetParameterValues` returns a fresh sequence rather than a fresh array.
- `XssFiltering.DoFilterInternal`: the content-type test is case-sensitive, as in the source (`UpperCaseJsonWrapped`). The rule's ignore flag has no effect, as in the source (`IgnoreFlagHasNoEffect`).
- `MessageResolution`: ResourceBundle parent-locale fallback is folded into the bundles map given to the sync.
- Spring's HandlerExecutionChain semantics (afterCompletion only for the interceptors whose preHandle returned true, in reverse order) are taken as given.

## Findings

| source | as written | input that shows it | evidently intended | confidence | as-written member | corrected member |
|---|---|---|---|---|---|---|
| src/main/java/com/mingchico/cms/core/ratelimit/GlobalRateLimitFilter.java:123-138 | the chain call on the admitted path sits inside the try whose catch fails open, so an exception thrown downstream is caught and the chain runs a second time | a request that is not exempt, from an untrusted peer, on a fresh key, whose chain throws, runs the chain twice | only the provider call fails open; the chain runs at most once and downstream exceptions propagate | high, not executed | RateLimitFiltering.RateAdmissionAsWritten, RateLimitFiltering.DownstreamFailureRerunsChain | RateLimitFiltering.RateAdmission, RateLimitFiltering.ChainRunsAtMostOnce |
| src/main/java/com/mingchico/cms/core/security/FormAuthenticationSuccessHandler.java:75-77 | any target starting with "/" counts as a safe relative path | the target "//evil.com/x" passes isSafeRedirectUrl, and a saved request whose redirect URL is that target is followed to another host; the default HttpSessionRequestCache saves absolute URLs on this server, so this needs a request cache or saved request that yields a protocol-relative URL | a protocol-relative target ("//" or "/" and a backslash) is accepted only when its parsed host is this server's | medium, not executed | AuthenticationHandlers.SafeRedirectAsWritten, AuthenticationHandlers.OnSuccessAsWritten, AuthenticationHandlers.ProtocolRelativeTargetPasses, AuthenticationHandlers.SavedProtocolRelativeTargetFollowed, AuthenticationHandlers.BackslashTargetRefused | AuthenticationHandlers.SafeRedirect, AuthenticationHandlers.OnSuccess, AuthenticationHandlers.LoginNeverRedirectsOffSite |
| src/main/java/com/mingchico/cms/core/menu/interceptor/MenuAclInterceptor.java:42-45 | MenuContext is cleared only in the ACL interceptor's afterCompletion, which runs only when its preHandle returned true, so a 404 from the access interceptor, an access denial, or an ACL-excluded path leaves the menu bound on the thread | "/event/secret/entry" (an inaccessible menu, answered 404) followed on the same thread by "/login" with no site: the second request is answered 404 for the stale menu | the binding is cleared after every request, whatever its outcome | high, not executed | MenuInterception.ChainAsWritten, MenuInterception.StaleMenuAnswersNextRequest | MenuInterception.Chain, MenuInterception.ChainAlwaysClears |
