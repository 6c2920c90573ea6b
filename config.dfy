/** Flask configuration (techsubs/config.py): the site name and the production switch. */
module Config {
  import opened Metrics

  /** A configuration entry: text or a flag. */
  datatype ConfigValue = Text(text: string) | Flag(flag: bool)

  predicate StartsWith(s: string, prefix: string) {
    |prefix| <= |s| && s[..|prefix|] == prefix
  }

  /** `os.environ.get('SERVER_SOFTWARE', '')`. */
  function ServerSoftware(environ: map<string, string>): string {
    if "SERVER_SOFTWARE" in environ then environ["SERVER_SOFTWARE"] else ""
  }

  /** The IS_PRODUCTION decision: off when the variable is empty, missing or starts with `Development`. */
  function IsProductionServer(environ: map<string, string>): bool {
    var serverSoftware := ServerSoftware(environ);
    !(serverSoftware == "" || StartsWith(serverSoftware, "Development"))
  }

  /** The Flask application's configuration dictionary. */
  class AppConfig {
    var config: map<string, ConfigValue>

    constructor (initial: map<string, ConfigValue>)
      ensures config == initial
    {
      config := initial;
    }

    /** IS_PRODUCTION as the metric layer reads it. */
    predicate IsProduction()
      reads this
    {
      "IS_PRODUCTION" in config && config["IS_PRODUCTION"] == Flag(true)
    }

    /** `populate_flask_config(app)`: sets SITE_NAME and IS_PRODUCTION and leaves every other entry alone. */
    method PopulateFlaskConfig(environ: map<string, string>)
      modifies this
      ensures config == old(config)["SITE_NAME" := Text("Tech Subreddit Tracker")]
                                   ["IS_PRODUCTION" := Flag(IsProductionServer(environ))]
      ensures IsProduction() == IsProductionServer(environ)
    {
      config := config["SITE_NAME" := Text("Tech Subreddit Tracker")];
      var serverSoftware := ServerSoftware(environ);
      if serverSoftware == "" || StartsWith(serverSoftware, "Development") {
        config := config["IS_PRODUCTION" := Flag(false)];
      } else {
        config := config["IS_PRODUCTION" := Flag(true)];
      }
    }
  }

  /** A missing or empty SERVER_SOFTWARE is not production. */
  lemma UnsetServerIsNotProduction(environ: map<string, string>)
    requires "SERVER_SOFTWARE" !in environ || environ["SERVER_SOFTWARE"] == ""
    ensures !IsProductionServer(environ)
  {
  }

  /** The development server (`Development/...`) is not production. */
  lemma DevelopmentServerIsNotProduction(environ: map<string, string>, rest: string)
    requires "SERVER_SOFTWARE" in environ && environ["SERVER_SOFTWARE"] == "Development" + rest
    ensures !IsProductionServer(environ)
  {
    assert ("Development" + rest)[..11] == "Development";
  }

  /** Any other non-empty value is production. */
  lemma OtherServerIsProduction(environ: map<string, string>)
    requires "SERVER_SOFTWARE" in environ && environ["SERVER_SOFTWARE"] != ""
    requires !StartsWith(environ["SERVER_SOFTWARE"], "Development")
    ensures IsProductionServer(environ)
  {
  }

  /** The environment label every metric carries follows the decision: `prod` exactly in production. */
  lemma EnvironmentLabelFollowsServer(environ: map<string, string>)
    ensures StandardLabelValues(IsProductionServer(environ))["environment"] == "prod"
        <==> ServerSoftware(environ) != "" && !StartsWith(ServerSoftware(environ), "Development")
  {
  }
}
