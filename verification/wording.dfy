/** The literal wording of aeo_logic1.py's `run_audit`: the two locales of
    `local_mode`, the prose of the twelve baseline entries (with the "%s"
    slots the locale fills) and the prose of every entry the detectors
    write. Kept apart from the catalogue's structure, so that proofs about
    keys, icons and merging hold for any wording and never unfold these
    strings. */
module Wording {
  import opened Catalogue

  /** The phrases chosen by `local_mode`. */
  function LocaleFor(localMode: bool): Locale {
    if localMode then
      Locale("Mechanic in Upwey",
        "Google Business Profile, Bing Places, Yellow Pages AU",
        "Google and Yelp AU (and ProductReview.com.au)",
        "local Best Of lists, community news, and suburb blogs")
    else
      Locale("Best [Service] in [City]",
        "Google Business Profile, Bing Places, industry directories",
        "Google, Yelp, niche review sites",
        "regional Best Of lists and industry roundups")
  }

  /** The prose of the dict literal `data`. */
  function ToolBaselineText(): BaselineText {
    BaselineText(
      readability := Prose("Average clarity",
        "Tighten copy; shorter sentences",
        "AI answers prefer concise, plain-language summaries they can quote quickly.",
        "Target ~7th-grade reading, add bullets above the fold.",
        "Rewrite hero in bullets"),
      tone := Prose("Mixed (first-person + promo)",
        "Rewrite in third-person expert voice",
        "Neutral expert tone increases trust and likelihood of citation by AI systems.",
        "Rewrite key pages as if an independent expert is recommending you; avoid hype.",
        "Rewrite About and Services"),
      cityPages := Prose("Missing dedicated pages",
        "Create location pages (e.g., %s)",
        "Dedicated service+city pages feed AI with precise local answers and intent signals.",
        "For each suburb/city: 2 short paragraphs, 1 local testimonial, contact CTA, and LocalBusiness + FAQ schema.",
        "Draft 3 suburb pages and link in footer"),
      faq := Prose("A few basic FAQs",
        "Add 5-10 buyer FAQs with concise answers",
        "Q&A blocks map directly to how users ask AI and power rich answers.",
        "Add pricing/turnaround/warranty/service-area FAQs; add FAQPage schema.",
        "Add 5 FAQs to a top service page"),
      testimonials := Prose("Weak social proof",
        "Create testimonials page and 1-2 case studies",
        "Social proof is a strong recommendation signal for AI and a conversion driver for humans.",
        "Collect 6-10 quotes with names/suburbs; add a Results story with before/after.",
        "Email last 10 customers for quotes"),
      comparison := Prose("No competitor comparison",
        "Add a simple comparison table (You vs 3 competitors)",
        "Side-by-side comparisons are frequently quoted in AI X vs Y.",
        "4 columns: You vs 3 competitors; rows: features, warranty, response time, price band, reviews.",
        "Publish /compare with 5 key rows"),
      pricing := Prose("Contact us only",
        "Add from pricing or ranges",
        "Price signals help AI route high-intent users and reduce friction.",
        "Publish from pricing or typical ranges; link to a pricing explainer.",
        "Add a 3-tier pricing block"),
      directory := Prose("Partially completed profiles",
        "Complete %s and keep NAP consistent",
        "Consistent profiles and citations strengthen local entity understanding for AI and maps.",
        "Ensure name-address-phone matches everywhere; add categories, services, photos, hours.",
        "Verify Google Business Profile and add 5 photos"),
      reviews := Prose("Low review volume",
        "Increase %s; ask after completed jobs",
        "Review volume and recency heavily influence AI recommendations.",
        "Automate review requests by SMS/email post-job; add Review schema.",
        "Send review request to last 20 customers"),
      press := Prose("No third-party mentions",
        "Pitch inclusion in %s",
        "Third-party mentions validate authority; AI tools lean on them to avoid bias.",
        "Pitch bloggers/journalists; publish Best of [Category] in [City] with clear criteria.",
        "Write a press release about a win"),
      schema := Prose("Partial schema present",
        "Add/validate LocalBusiness, FAQPage, Review schema",
        "Structured data helps AI understand entities, services, and proof.",
        "Use JSON-LD; test in Rich Results and Schema validators; add sameAs links.",
        "Add FAQPage schema to top page"),
      mobile := Prose("Passable mobile UX",
        "Tidy tap targets; keep CLS/LCP in check",
        "Most AI-driven searches happen on mobile; poor UX kills conversions.",
        "Ensure click-to-call is 1 tap; compress images; lazy-load below the fold.",
        "Compress hero images, verify LCP < 2.5s"))
  }

  /** The prose of the entries the readability, tone, FAQ, testimonial and
      comparison detectors write. */
  function ToolLiveText(): LiveText {
    LiveText(
      clear := Prose("Clear (Grade ~%s)",
        "Keep concise structure",
        "AI prefers succinct, scannable copy.",
        "Maintain short sentences, bullets, descriptive headings.",
        "Keep hero to 2 lines plus 3 bullets"),
      moderate := Prose("Moderate (Grade ~%s)",
        "Tighten copy; shorten sentences",
        "Easier reading improves chance of being quoted.",
        "Trim long sentences; add bullets to key benefits.",
        "Rewrite hero and first section"),
      complex := Prose("Complex (Grade ~%s)",
        "Simplify to about 7th grade",
        "Complex text is less likely to be quoted by AI.",
        "Shorten sentences; swap jargon for plain language.",
        "Rewrite hero and top 2 sections"),
      thirdPerson := Prose("Third-person",
        "Maintain expert voice",
        "Neutral, expert tone increases trust and citations.",
        "Keep independent expert voice; avoid hype.",
        "Review About and Services for consistency"),
      firstPerson := Prose("First-person heavy",
        "Rewrite to third-person expert",
        "Objective tone is preferred in AI answers.",
        "Rewrite key pages to expert third-person; reduce we/our.",
        "Rewrite About and Services first"),
      mixedTone := Prose("Mixed",
        "Normalize to expert third-person",
        "Consistency improves trust and extractability.",
        "Edit pages to one consistent expert voice.",
        "Start with homepage"),
      faqFound := Prose("Found usable FAQs",
        "Expand over time",
        "Q&A mirrors how users ask AI questions.",
        "Add pricing/turnaround/warranty FAQs; add FAQPage schema.",
        "Add 3 FAQs to top service page"),
      faqMissing := Prose("No proper FAQs",
        "Add 5-10 buyer FAQs",
        "Directly fuels answer engines and rich results.",
        "Write concise Q&As; implement FAQPage schema.",
        "Publish 5 FAQs this week"),
      strongProof := Prose("Strong",
        "Keep fresh and detailed",
        "Social proof boosts AI recommendations and conversions.",
        "Rotate new quotes and add case studies.",
        "Collect 2 fresh quotes monthly"),
      someProof := Prose("Some quotes",
        "Add more plus 1-2 case studies",
        "Proof of outcomes increases trust signals.",
        "Gather 6-10 quotes; add one before/after story.",
        "Request quotes from last 10 clients"),
      weakProof := Prose("Missing/weak",
        "Create testimonials page plus case study",
        "AI and users rely on proof points.",
        "Collect 6-10 quotes; publish one detailed case study.",
        "Email last 10 customers for a 2-line quote"),
      tablePresent := Prose("Present",
        "Ensure clarity and fairness",
        "Side-by-side tables are cited in AI X vs Y.",
        "Keep factual; add features, warranty, price range.",
        "Add a row for response time"),
      tableMissing := Prose("Not found",
        "Add You vs 3 competitors table",
        "Helps AI for 'Which is best' queries.",
        "Create a 4-column table with honest comparisons.",
        "Publish /compare with 5 key rows"))
  }
}
